/** What every scheduler and blocking call does, call by call, in terms of rings, lists and objects
    alone.  Ring 0 is LOW, 1 is NORMAL, 2 is HIGH; a slice is five ticks. */
module SchedulerCalls {
  import opened Wrappers
  import opened QueueSpec
  import opened QueueLaws
  import opened SchedulerSpec
  import opened SchedulerLaws
  import opened SchedulerRuns

  // ---- Rings ------------------------------------------------------------------------------------

  /** The ready ring of a thread is its priority; a priority out of range counts as NORMAL. */
  ghost function Ring<T>(q: Queues<T>, t: T): (p: nat)
    ensures p < 3
  {
    if t in q.pri && q.pri[t] < 3 then q.pri[t] else 1
  }

  /** `q` with thread `t` at the back of its ring. */
  ghost function Queued<T>(q: Queues<T>, t: T): (r: Queues<T>)
    requires |q.ready| == 3
    ensures |r.ready| == 3
  {
    var p := Ring(q, t);
    q.(ready := q.ready[p := q.ready[p] + [t]], place := q.place[t := Ready(p)])
  }

  lemma PushQueues<T>(q: Queues<T>, t: T)
    requires |q.ready| == PRIORITIES
    ensures Push(q, t) == Queued(q, t)
  {}

  /** `h` is the most urgent ring with a thread. */
  ghost predicate Top<T>(q: Queues<T>, h: nat)
    requires |q.ready| == 3
  {
    h < 3 && q.ready[h] != [] && forall k | h < k < 3 :: q.ready[k] == []
  }

  ghost predicate NobodyReady<T>(q: Queues<T>)
    requires |q.ready| == 3
  {
    forall k | 0 <= k < 3 :: q.ready[k] == []
  }

  /** The first thread of ring `h` gets the processor for a full slice. */
  ghost function Taken<T>(q: Queues<T>, h: nat): (r: Queues<T>)
    requires |q.ready| == 3 && h < 3 && q.ready[h] != []
    ensures |r.ready| == 3
  {
    var t := q.ready[h][0];
    q.(current := t, quantum := 5, ready := q.ready[h := q.ready[h][1..]], place := q.place[t := Running])
  }

  /** So it does, and the thread it displaces goes to the back of its own ring if it still runs. */
  ghost function Switched<T>(q: Queues<T>, h: nat): Queues<T>
    requires |q.ready| == 3 && h < 3 && q.ready[h] != []
  {
    if q.current in q.place && q.place[q.current] == Running then Queued(Taken(q, h), q.current) else Taken(q, h)
  }

  /** A switch goes to the most urgent ring, or changes nothing if nobody is ready. */
  ghost predicate SwitchedTo<T>(q: Queues<T>, r: Queues<T>)
    requires |q.ready| == 3
  {
    (NobodyReady(q) ==> r == q) && forall h: nat | Top(q, h) :: r == Switched(q, h)
  }

  /** One ring is the most urgent one, or nobody is ready. */
  lemma TopOrNobody<T>(q: Queues<T>)
    requires |q.ready| == 3
    ensures NobodyReady(q) || exists h: nat :: Top(q, h)
    ensures forall h: nat, k: nat | Top(q, h) && Top(q, k) :: h == k
  {
    if q.ready[2] != [] { assert Top(q, 2); }
    else if q.ready[1] != [] { assert Top(q, 1); }
    else if q.ready[0] != [] { assert Top(q, 0); }
  }

  lemma DispatchSwitches<T>(q: Queues<T>)
    requires |q.ready| == PRIORITIES && Parked(q)
    ensures SwitchedTo(q, Dispatch(q))
  {
    hide Dispatch, Parked, Switched;
    forall h: nat | Top(q, h) ensures Dispatch(q) == Switched(q, h) { DispatchTakes(q, h); }
    if NobodyReady(q) { DispatchNobody(q); }
  }

  lemma DispatchNobody<T>(q: Queues<T>)
    requires |q.ready| == PRIORITIES && NobodyReady(q)
    ensures Dispatch(q) == q
  {}

  lemma DispatchTakes<T>(q: Queues<T>, h: nat)
    requires |q.ready| == PRIORITIES && Parked(q) && Top(q, h)
    ensures Dispatch(q) == Switched(q, h)
  {
    assert Highest(q.ready) == h;
    SwitchFacts(q);
    hide Lists, Dispatch;
    var next, c := q.ready[h][0], q.current;
    var popped := q.ready[h := q.ready[h][1..]];
    assert Popped(q) == popped && Next(q) == next && Level(q, c) == Ring(q, c);
    if q.place[c] == Running { SamePlaces(q.place, c, Ready(Ring(q, c)), next); }
  }

  lemma SamePlaces<T>(place: map<T, Place>, c: T, at: Place, next: T)
    requires c != next
    ensures place[c := at][next := Running] == place[next := Running][c := at]
  {}

  // ---- Every ready thread is in the ring of its priority ----------------------------------------------

  ghost predicate Ranked<T>(q: Queues<T>) {
    forall t | t in q.place && q.place[t].Ready? :: q.place[t] == Ready(Ring(q, t))
  }

  lemma MoveKeepsRanks<T>(q: Queues<T>, m: Move<T>)
    requires |q.ready| == PRIORITIES && Ranked(q) && !m.Reprioritize?
    ensures Ranked(Do(q, m))
  {}

  ghost predicate KeepsPriorities<T>(ms: seq<Move<T>>) { forall i | 0 <= i < |ms| :: !ms[i].Reprioritize? }

  lemma {:induction false} MovesKeepRanks<T>(q: Queues<T>, ms: seq<Move<T>>)
    requires |q.ready| == PRIORITIES && Ranked(q) && KeepsPriorities(ms)
    ensures Ranked(DoAll(q, ms))
    decreases |ms|
  {
    hide Do, Ranked;
    if ms != [] {
      MoveKeepsRanks(q, ms[0]);
      MovesKeepRanks(Do(q, ms[0]), ms[1..]);
    }
  }

  lemma OnlyRankReprioritizes<T>(q: Queues<T>, now: nat, e: Effect<T>)
    requires |q.ready| == PRIORITIES && !e.Rank?
    ensures KeepsPriorities(Moves(q, now, e))
  {
    if e.Grant? || e.Die? { WakeMovesOnlyWake<T>(e.o, e.n); }
    if e.Advance? { RouseMovesOnlyRouse(q, 0, now + 1); }
  }

  lemma StepKeepsRanks<T>(s: State<T>, op: Op<T>)
    requires ThreadsOk(s) && Ranked(s.q)
    ensures Ranked(Step(s, op).q)
  {
    hide Lists, DoAll, Do, Moves, EffectOf, Ranked, Up;
    var e := EffectOf(s, op);
    if e.Rank? {
      RankIsOneMove(s.q, s.now, e);
      OneMove(s.q, Reprioritize(e.level));
      CurrentKeepsRanks(s.q, e.level);
    } else {
      OnlyRankReprioritizes(s.q, s.now, e);
      MovesKeepRanks(s.q, Moves(s.q, s.now, e));
    }
  }

  lemma RankIsOneMove<T>(q: Queues<T>, now: nat, e: Effect<T>)
    requires |q.ready| == PRIORITIES && e.Rank?
    ensures Moves(q, now, e) == [Reprioritize(e.level)]
  {}

  /** The running thread is in no ring when its priority changes. */
  lemma CurrentKeepsRanks<T>(q: Queues<T>, level: nat)
    requires |q.ready| == PRIORITIES && Placed(q) && Ranked(q)
    ensures Ranked(Do(q, Reprioritize(level)))
  {
    hide Lists;
  }

  /** Over every run, each ready thread is in the ring of its priority. */
  lemma {:induction false} RunKeepsRanks<T>(s: State<T>, ops: seq<Op<T>>)
    requires |s.q.ready| == PRIORITIES && Inv(s) && AllowedRun(s, ops) && Ranked(s.q)
    ensures Ranked(Run(s, ops).q)
    decreases |ops|
  {
    hide Step, Allowed, Ranked, KeysOk, EventsOk, SemasOk, MutantsOk, ProcessesOk, SleepOk, Placed, Up;
    if ops != [] {
      StepKeepsRanks(s, ops[0]);
      StepKeepsInvariant(s, ops[0]);
      RunKeepsRanks(Step(s, ops[0]), ops[1..]);
    }
  }

  lemma BootIsRanked<T>(main: T, pri: nat, objects: set<Obj>)
    ensures Ranked(BootQueues(main, pri, objects))
  {}

  // ---- Blocking and waking -----------------------------------------------------------------------------

  /** The current thread joins a wait list. */
  ghost function Enlisted<T>(q: Queues<T>, o: Obj, front: bool): (r: Queues<T>)
    requires o in q.waiters
    ensures r.ready == q.ready
  {
    q.(waiters := q.waiters[o := if front then [q.current] + q.waiters[o] else q.waiters[o] + [q.current]],
       place := q.place[q.current := Waiting(o)])
  }

  /** The call blocks: the current thread joins a wait list and the processor is switched. */
  ghost predicate BlockedOn<T>(q: Queues<T>, o: Obj, front: bool, r: Queues<T>)
    requires |q.ready| == 3
  {
    o in q.waiters && SwitchedTo(Enlisted(q, o, front), r)
  }

  lemma BlockMoves<T>(q: Queues<T>, o: Obj, front: bool)
    requires |q.ready| == PRIORITIES && Placed(q) && o in q.waiters
    ensures BlockedOn(q, o, front, DoAll(q, [Wait(o, front), Switch]))
  {
    hide Lists, DoAll, Dispatch;
    MoveParked(q, Wait(o, front));
    ThenSwitch(q, Wait(o, front));
    assert Do(q, Wait(o, front)) == Enlisted(q, o, front);
    DispatchSwitches(Enlisted(q, o, front));
  }

  /** The first `n` threads of a wait list leave it and go to the back of their rings, one by one. */
  ghost function Released<T>(q: Queues<T>, o: Obj, n: nat): (r: Queues<T>)
    requires |q.ready| == 3 && o in q.waiters && n <= |q.waiters[o]|
    ensures |r.ready| == 3
    decreases n
  {
    if n == 0 then q else
    var w := q.waiters[o];
    Released(Queued(q.(waiters := q.waiters[o := w[1..]]), w[0]), o, n - 1)
  }

  lemma {:induction false} WakeMovesRelease<T>(q: Queues<T>, o: Obj, n: nat)
    requires |q.ready| == PRIORITIES && o in q.waiters && n <= |q.waiters[o]|
    ensures DoAll(q, WakeMoves(o, n)) == Released(q, o, n)
    decreases n
  {
    hide Push, Queued;
    if n > 0 {
      var ms: seq<Move<T>> := WakeMoves(o, n);
      assert ms[0] == Wake(o) && ms[1..] == WakeMoves(o, n - 1);
      var w := q.waiters[o];
      PushQueues(q.(waiters := q.waiters[o := w[1..]]), w[0]);
      assert Do(q, Wake(o)) == Queued(q.(waiters := q.waiters[o := w[1..]]), w[0]);
      QueuedFrame(q.(waiters := q.waiters[o := w[1..]]), w[0]);
      WakeMovesRelease(Do(q, Wake(o)), o, n - 1);
    }
  }

  lemma QueuedFrame<T>(q: Queues<T>, t: T)
    requires |q.ready| == 3
    ensures Queued(q, t).waiters == q.waiters
  {}

  // ---- Events ---------------------------------------------------------------------------------------

  /** NtWaitForSingleObject on an event: it passes if the event is signaled, and an auto-reset event is
      then reset; else it gives up if the timeout is 0, or blocks at the front of the wait list. */
  lemma EventWaited<T>(s: State<T>, i: nat, timeout: nat)
    requires Inv(s)
    ensures var r, st := Step(s, WaitEvent(i, timeout)), Result(s, WaitEvent(i, timeout));
      if i >= |s.events| then r == s && st == InvalidHandle
      else if s.events[i].signaled then
        st == Success && r == s.(events := s.events[i := Event(!s.events[i].autoReset, s.events[i].autoReset)])
      else if timeout % 0x1_0000_0000 == 0 then r == s && st == Timeout
      else st == Success && r == s.(q := r.q) && BlockedOn(s.q, EventObj(i), true, r.q)
  {
    hide EventsOk, SemasOk, MutantsOk, ProcessesOk, SleepOk, Placed, Up, DoAll, Moves, BlockedOn, Released;
    var op: Op<T> := WaitEvent(i, timeout);
    CallStep(s, op);
    if i < |s.events| && !s.events[i].signaled && timeout % U32 != 0 { Blocks(s, op, EventObj(i), true); }
  }

  /** A call that moves no thread. */
  lemma CallStep<T>(s: State<T>, op: Op<T>)
    requires |s.q.ready| == PRIORITIES
    ensures Step(s, op) == Objects(s, op).(q := Step(s, op).q) && Objects(s, op).q == s.q
    ensures EffectOf(s, op) == NoEffect ==> Step(s, op) == Objects(s, op)
  {
    ObjectsFrame(s, op);
    assert EffectOf(s, op) == NoEffect ==> DoAll(s.q, Moves(s.q, s.now, EffectOf(s, op))) == s.q;
  }

  /** A call that blocks. */
  lemma Blocks<T>(s: State<T>, op: Op<T>, o: Obj, front: bool)
    requires Inv(s) && EffectOf(s, op) == Block(o, front) && Exists(s, o)
    ensures BlockedOn(s.q, o, front, Step(s, op).q)
  {
    hide Placed, BlockedOn, Objects, EffectOf, DoAll, EventsOk, SemasOk, MutantsOk, ProcessesOk, SleepOk, Up;
    assert o in s.q.waiters;
    BlockMoves(s.q, o, front);
    assert Moves(s.q, s.now, EffectOf(s, op)) == [Wait(o, front), Switch];
  }

  /** A call that readies threads. */
  lemma Grants<T>(s: State<T>, op: Op<T>, o: Obj, n: nat)
    requires Inv(s) && EffectOf(s, op) == Grant(o, n) && Exists(s, o) && n <= |WaitersOf(s.q, o)|
    ensures o in s.q.waiters && Step(s, op).q == Released(s.q, o, n)
  {
    hide Placed, Released, Objects, EffectOf, DoAll, EventsOk, SemasOk, MutantsOk, ProcessesOk, SleepOk, Up;
    assert o in s.q.waiters;
    WakeMovesRelease(s.q, o, n);
  }

  /** NtSetEvent: the first waiter becomes ready, and a manual-reset event is signaled besides; without
      a waiter the event is signaled. */
  lemma EventWasSet<T>(s: State<T>, i: nat)
    requires Inv(s)
    ensures var r, st := Step(s, SetEvent(i)), Result(s, SetEvent(i));
      if i >= |s.events| then r == s && st == InvalidHandle
      else
        var signaled := s.events[i := s.events[i].(signaled := true)];
        && st == Success && EventObj(i) in s.q.waiters
        && (if s.q.waiters[EventObj(i)] == [] then r == s.(events := signaled)
            else r == s.(q := Released(s.q, EventObj(i), 1),
                         events := if s.events[i].autoReset then s.events else signaled))
  {
    hide EventsOk, SemasOk, MutantsOk, ProcessesOk, SleepOk, Placed, Up, DoAll, Moves, BlockedOn, Released;
    var op: Op<T> := SetEvent(i);
    CallStep(s, op);
    if i < |s.events| {
      assert Exists(s, EventObj(i));
      if WaitersOf(s.q, EventObj(i)) != [] {
        Grants(s, op, EventObj(i), 1);
        SameEvent(s, i);
      }
    }
  }

  lemma SameEvent<T>(s: State<T>, i: nat)
    requires i < |s.events|
    ensures s.events[i := s.events[i]] == s.events && s.events[i].(signaled := s.events[i].signaled) == s.events[i]
  {}

  /** NtResetEvent. */
  lemma EventWasReset<T>(s: State<T>, i: nat)
    requires Inv(s)
    ensures var r, st := Step(s, ResetEvent(i)), Result(s, ResetEvent(i));
      if i >= |s.events| then r == s && st == InvalidHandle
      else st == Success && r == s.(events := s.events[i := s.events[i].(signaled := false)])
  {
    hide EventsOk, SemasOk, MutantsOk, ProcessesOk, SleepOk, Placed, Up, DoAll, Moves, BlockedOn, Released;
    CallStep(s, ResetEvent(i));
  }

  // ---- Semaphores ----------------------------------------------------------------------------------------

  /** NtWaitForSingleObject on a semaphore takes a unit; else it gives up if the timeout is 0, or blocks
      at the back of the wait list. */
  lemma SemaWaited<T>(s: State<T>, i: nat, timeout: nat)
    requires Inv(s)
    ensures var r, st := Step(s, WaitSema(i, timeout)), Result(s, WaitSema(i, timeout));
      if i >= |s.semas| then r == s && st == InvalidHandle
      else if s.semas[i].count > 0 then
        st == Success && r == s.(semas := s.semas[i := s.semas[i].(count := s.semas[i].count - 1)])
      else if timeout == 0 then r == s && st == Timeout
      else st == Success && r == s.(q := r.q) && BlockedOn(s.q, SemaObj(i), false, r.q)
  {
    hide EventsOk, SemasOk, MutantsOk, ProcessesOk, SleepOk, Placed, Up, DoAll, Moves, BlockedOn, Released;
    var op: Op<T> := WaitSema(i, timeout);
    CallStep(s, op);
    if i < |s.semas| && s.semas[i].count <= 0 && timeout != 0 { Blocks(s, op, SemaObj(i), false); }
  }

  /** NtReleaseSemaphore: a count that is not positive means one.  Units go to the waiters first, in
      order; the rest is added to the count, up to the maximum.  The sum is taken in 32 bits. */
  lemma SemaWasReleased<T>(s: State<T>, i: nat, units: int)
    requires Inv(s)
    ensures var r, st := Step(s, ReleaseSema(i, units)), Result(s, ReleaseSema(i, units));
      if i >= |s.semas| then r == s && st == InvalidHandle
      else
        var n := if units <= 0 then 1 else units;
        var waiting := |WaitersOf(s.q, SemaObj(i))|;
        var woken := if n < waiting then n else waiting;
        var sum := s.semas[i].count + (n - woken);
        var wrapped := if sum > 0x7fff_ffff then sum - 0x1_0000_0000 else sum;
        && st == Success && SemaObj(i) in s.q.waiters
        && r.q == Released(s.q, SemaObj(i), woken)
        && r == s.(q := r.q, semas := s.semas[i :=
             s.semas[i].(count := if wrapped > s.semas[i].max then s.semas[i].max else wrapped)])
  {
    hide KeysOk, EventsOk, SemasOk, ProcessesOk, SleepOk, Placed, Up, MutantsOk, DoAll, Moves, Released;
    var op: Op<T> := ReleaseSema(i, units);
    CallStep(s, op);
    if i < |s.semas| {
      assert Exists(s, SemaObj(i));
      Grants(s, op, SemaObj(i), Min(Units(units), |WaitersOf(s.q, SemaObj(i))|));
    }
  }

  // ---- Mutants ---------------------------------------------------------------------------------------------

  /** NtWaitForSingleObject on a mutant: a free one is taken, the owner's depth grows, in 32 bits, and
      anybody else blocks at the back of the wait list. */
  lemma MutantWaited<T>(s: State<T>, i: nat)
    requires Inv(s)
    ensures var r, st, c := Step(s, WaitMutant(i)), Result(s, WaitMutant(i)), s.q.current;
      if i >= |s.mutants| then r == s && st == InvalidHandle
      else
        && st == Success
        && match s.mutants[i].owner
           case None => r == s.(mutants := s.mutants[i := Mutant(Some(c), 1)])
           case Some(t) =>
             if t == c
             then r == s.(mutants := s.mutants[i := Mutant(Some(c), (s.mutants[i].depth + 1) % 0x1_0000_0000)])
             else r == s.(q := r.q) && BlockedOn(s.q, MutantObj(i), false, r.q)
  {
    hide EventsOk, SemasOk, MutantsOk, ProcessesOk, SleepOk, Placed, Up, DoAll, Moves, BlockedOn, Released;
    var op: Op<T> := WaitMutant(i);
    CallStep(s, op);
    if i < |s.mutants| && s.mutants[i].owner.Some? && s.mutants[i].owner.value != s.q.current {
      Blocks(s, op, MutantObj(i), false);
    }
  }

  /** NtReleaseMutant: only the owner may; the depth falls, and at 0 the first waiter becomes the owner
      and ready, or the mutant is free. */
  lemma MutantWasReleased<T>(s: State<T>, i: nat)
    requires Inv(s)
    ensures var r, st, c := Step(s, ReleaseMutant(i)), Result(s, ReleaseMutant(i)), s.q.current;
      if i >= |s.mutants| then r == s && st == InvalidHandle
      else if s.mutants[i].owner != Some(c) then r == s && st == NotOwned
      else
        && st == Success && MutantObj(i) in s.q.waiters
        && var w := s.q.waiters[MutantObj(i)];
           if s.mutants[i].depth > 1
           then r == s.(mutants := s.mutants[i := Mutant(Some(c), s.mutants[i].depth - 1)])
           else if w == [] then r == s.(mutants := s.mutants[i := Mutant(None, 0)])
           else r == s.(q := Released(s.q, MutantObj(i), 1), mutants := s.mutants[i := Mutant(Some(w[0]), 1)])
  {
    hide EventsOk, SemasOk, ProcessesOk, SleepOk, Placed, Up, DoAll, Moves, Released;
    var op: Op<T> := ReleaseMutant(i);
    CallStep(s, op);
    if i < |s.mutants| {
      assert Exists(s, MutantObj(i)) && MutantOk(s.mutants[i], WaitersOf(s.q, MutantObj(i)));
      if s.mutants[i].owner == Some(s.q.current) && s.mutants[i].depth == 1 && WaitersOf(s.q, MutantObj(i)) != [] {
        Grants(s, op, MutantObj(i), 1);
      }
    }
  }

  // ---- Processes and threads ---------------------------------------------------------------------------------

  /** NtWaitForSingleObject on a process: it passes if the process has exited. */
  lemma ProcessWaited<T>(s: State<T>, i: nat, timeout: nat)
    requires Inv(s)
    ensures var r, st := Step(s, WaitProcess(i, timeout)), Result(s, WaitProcess(i, timeout));
      if i >= |s.procs| then r == s && st == InvalidHandle
      else if s.procs[i].exited then r == s && st == Success
      else if timeout == 0 then r == s && st == Timeout
      else st == Success && r == s.(q := r.q) && BlockedOn(s.q, ProcessObj(i), true, r.q)
  {
    hide EventsOk, SemasOk, MutantsOk, ProcessesOk, SleepOk, Placed, Up, DoAll, Moves, BlockedOn, Released;
    var op: Op<T> := WaitProcess(i, timeout);
    CallStep(s, op);
    if i < |s.procs| && !s.procs[i].exited && timeout != 0 { Blocks(s, op, ProcessObj(i), true); }
  }

  /** A thread exits: it is terminated and counted out of its process; the last one makes the process
      exited and readies everybody who waits for that; then the processor is switched. */
  lemma ThreadExited<T>(s: State<T>)
    requires Inv(s) && s.q.current != s.main
    ensures s.q.current in s.home && s.home[s.q.current] < |s.procs|
    ensures var r, c, h := Step(s, Exit), s.q.current, s.home[s.q.current];
      && s.procs[h].threads > 0 && ProcessObj(h) in s.q.waiters
      && (var last := s.procs[h].threads == 1;
          var gone := s.q.(place := s.q.place[c := Terminated]);
          && SwitchedTo(Released(gone, ProcessObj(h), if last then |s.q.waiters[ProcessObj(h)]| else 0), r.q)
          && r == s.(q := r.q, procs := s.procs[h := Process(s.procs[h].threads - 1, s.procs[h].exited || last)]))
  {
    hide KeysOk, EventsOk, SemasOk, MutantsOk, SleepOk, Placed, Up, DoAll, Moves, Released, SwitchedTo;
    CallStep(s, Exit);
    CurrentLives(s);
    ExitFits(s);
    var h := s.home[s.q.current];
    assert ProcessOk(s, h);
    assert Living(s.q, s.home, h) != {};
    ExitMoves(s.q, s.now, ProcessObj(h), if s.procs[h].threads == 1 then |s.q.waiters[ProcessObj(h)]| else 0, s.main);
  }

  lemma ExitMoves<T>(q: Queues<T>, now: nat, o: Obj, n: nat, main: T)
    requires |q.ready| == PRIORITIES && Placed(q) && Up(q, main) && q.current != main
    requires o in q.waiters && n <= |q.waiters[o]|
    ensures SwitchedTo(Released(q.(place := q.place[q.current := Terminated]), o, n),
                       DoAll(q, Moves(q, now, Die(o, n))))
  {
    hide Lists, DoAll, Dispatch, Released, SwitchedTo, Up;
    var gone := q.(place := q.place[q.current := Terminated]);
    var ms: seq<Move<T>> := WakeMoves(o, n);
    assert Do(q, Finish) == gone;
    MoveParked(q, Finish);
    WakeMovesLegal(gone, o, n, main);
    WakeMovesRelease(gone, o, n);
    MovesUp(q, main);
    LegalAllParked(gone, ms, main);
    FirstMove(q, Finish, ms + [Switch]);
    DoAllAppend(gone, ms, [Switch]);
    OneMove(DoAll(gone, ms), Switch);
    DispatchSwitches(DoAll(gone, ms));
  }

  lemma MovesUp<T>(q: Queues<T>, main: T)
    requires |q.ready| == PRIORITIES && Placed(q) && Up(q, main) && q.current != main
    ensures Up(Do(q, Finish), main)
  {
    hide Lists;
  }

  lemma FirstMove<T>(q: Queues<T>, m: Move<T>, ms: seq<Move<T>>)
    requires |q.ready| == PRIORITIES
    ensures DoAll(q, [m] + ms) == DoAll(Do(q, m), ms)
  {
    hide Do;
    assert ([m] + ms)[0] == m && ([m] + ms)[1..] == ms;
  }

  /** A new thread has NORMAL priority, is at the back of that ring, and is counted in its process. */
  lemma ThreadCreated<T>(s: State<T>, t: T, p: nat)
    requires Inv(s) && t !in s.q.place && p < |s.procs|
    ensures var r := Step(s, Spawn(t, p));
      r == s.(q := s.q.(pri := s.q.pri[t := 1], ready := s.q.ready[1 := s.q.ready[1] + [t]],
                        place := s.q.place[t := Ready(1)]),
              home := s.home[t := p],
              procs := s.procs[p := s.procs[p].(threads := s.procs[p].threads + 1)])
  {
    hide KeysOk, EventsOk, SemasOk, ProcessesOk, SleepOk, Placed, Up, MutantsOk, DoAll;
    CallStep(s, Spawn(t, p));
    OneMove(s.q, Admit(t, NORMAL));
  }

  /** NtSetInformationThread: LOW, NORMAL and HIGH are taken, anything else is refused. */
  lemma PrioritySet<T>(s: State<T>, level: nat)
    requires Inv(s)
    ensures var r, st := Step(s, SetPriority(level)), Result(s, SetPriority(level));
      if level < 3 then st == Success && r == s.(q := s.q.(pri := s.q.pri[s.q.current := level]))
      else st == InvalidParameter && r == s
  {
    hide KeysOk, EventsOk, SemasOk, ProcessesOk, SleepOk, Placed, Up, MutantsOk, DoAll;
    CallStep(s, SetPriority(level));
    if level < 3 { OneMove(s.q, Reprioritize(level)); }
  }

  // ---- Time --------------------------------------------------------------------------------------------------

  /** A yield switches the processor. */
  lemma Yielded<T>(s: State<T>)
    requires Inv(s)
    ensures var r := Step(s, Yield); r == s.(q := r.q) && SwitchedTo(s.q, r.q)
  {
    hide KeysOk, EventsOk, SemasOk, ProcessesOk, SleepOk, Lists, Up, MutantsOk, DoAll, Dispatch, SwitchedTo;
    CallStep(s, Yield);
    OneMove(s.q, Switch);
    DispatchSwitches(s.q);
  }

  /** Sleep(0) does nothing; else the thread goes to the front of the sleep list, with a deadline at the
      tick that begins no earlier than `ms` milliseconds from now, and the processor is switched. */
  lemma Slept<T>(s: State<T>, ms: nat)
    requires Inv(s)
    ensures var r, c := Step(s, Op.Sleep(ms)), s.q.current;
      if ms == 0 then r == s
      else
        var ticks := (ms + 9) / 10;
        && r == s.(q := r.q)
        && SwitchedTo(s.q.(sleepers := [c] + s.q.sleepers, place := s.q.place[c := Asleep],
                           until := s.q.until[c := s.now + ticks]), r.q)
  {
    hide KeysOk, EventsOk, SemasOk, MutantsOk, ProcessesOk, SleepOk, Up, Lists, DoAll, Dispatch, SwitchedTo;
    CallStep(s, Op.Sleep(ms));
    if ms > 0 {
      TicksAre(ms);
      ThenSwitch(s.q, Doze(s.now + SleepTicks(ms)));
      MoveParked(s.q, Doze(s.now + SleepTicks(ms)));
      DispatchSwitches(Do(s.q, Doze(s.now + SleepTicks(ms))));
    }
  }

  lemma TicksAre(ms: nat)
    requires ms > 0
    ensures SleepTicks(ms) == (ms + 9) / 10
  {}

  /** Threads go to the back of their rings, one by one. */
  ghost function AllQueued<T>(q: Queues<T>, ts: seq<T>): (r: Queues<T>)
    requires |q.ready| == 3
    ensures |r.ready| == 3
    decreases |ts|
  {
    if ts == [] then q else AllQueued(Queued(q, ts[0]), ts[1..])
  }

  lemma {:induction false} PushAllQueues<T>(q: Queues<T>, ts: seq<T>)
    requires |q.ready| == PRIORITIES
    ensures PushAll(q, ts) == AllQueued(q, ts)
    decreases |ts|
  {
    hide Push, Queued;
    if ts != [] {
      PushQueues(q, ts[0]);
      PushAllQueues(Queued(q, ts[0]), ts[1..]);
    }
  }

  /** The queues with everybody awake whose deadline has come at `now`, in the order of the sleep list. */
  ghost function Awoken<T>(q: Queues<T>, now: nat): (r: Queues<T>)
    requires |q.ready| == 3
    ensures |r.ready| == 3
  {
    AllQueued(q.(sleepers := Select(q, q.sleepers, now, false)), Select(q, q.sleepers, now, true))
  }

  /** A clock tick: the sleepers that are due wake up; then the slice shrinks by one, and the processor is
      switched when it ends.  A slice that ended with nobody ready stays at 0: nothing preempts its thread. */
  lemma Ticked<T>(s: State<T>)
    requires Inv(s)
    ensures var r, q := Step(s, Tick), Awoken(s.q, s.now + 1);
      && r == s.(q := r.q, now := s.now + 1)
      && if s.q.quantum == 0 then r.q == q
         else if s.q.quantum == 1 then SwitchedTo(q.(quantum := 0), r.q)
         else r.q == q.(quantum := s.q.quantum - 1)
  {
    hide KeysOk, EventsOk, SemasOk, ProcessesOk, SleepOk, Placed, Up, MutantsOk, DoAll, Moves, Awoken, SwitchedTo;
    CallStep(s, Tick);
    TickMoves(s.q, s.now);
  }

  lemma TickMoves<T>(q: Queues<T>, now: nat)
    requires |q.ready| == PRIORITIES && Placed(q)
    ensures var r, w := DoAll(q, Moves(q, now, Advance)), Awoken(q, now + 1);
      if q.quantum == 0 then r == w
      else if q.quantum == 1 then SwitchedTo(w.(quantum := 0), r)
      else r == w.(quantum := q.quantum - 1)
  {
    hide Lists, DoAll, Dispatch, SwitchedTo, RouseMoves, Select, AllQueued;
    var rouse: seq<Move<T>> := RouseMoves(q, 0, now + 1);
    var w := DoAll(q, rouse);
    RouseWakes(q, now + 1);
    assert w.quantum == q.quantum by { AllQueuedFrame(q, now + 1); }
    if q.quantum == 0 {
      assert rouse + [] == rouse;
    } else if q.quantum == 1 {
      RouseMovesLegal(q, 0, now + 1, q.current);
      RouseParked(q, now + 1);
      DoAllAppend(q, rouse, [Burn, Switch]);
      ThenSwitch(w, Burn);
      MoveParked(w, Burn);
      DispatchSwitches(Do(w, Burn));
    } else {
      DoAllAppend(q, rouse, [Burn]);
      OneMove(w, Burn);
    }
  }

  lemma RouseWakes<T>(q: Queues<T>, now: nat)
    requires |q.ready| == PRIORITIES
    ensures DoAll(q, RouseMoves(q, 0, now)) == Awoken(q, now)
  {
    RouseMovesExact(q, 0, now);
    assert q.sleepers[0..] == q.sleepers && q.sleepers[..0] == [];
    var rest := Select(q, q.sleepers, now, false);
    assert q.sleepers[..0] + rest == rest;
    PushAllQueues(q.(sleepers := rest), Select(q, q.sleepers, now, true));
  }

  lemma AllQueuedFrame<T>(q: Queues<T>, now: nat)
    requires |q.ready| == PRIORITIES
    ensures Awoken(q, now).quantum == q.quantum
  {
    hide Select;
    var rest, out := Select(q, q.sleepers, now, false), Select(q, q.sleepers, now, true);
    PushAllQueues(q.(sleepers := rest), out);
    PushAllPlaces(q.(sleepers := rest), out);
  }

  lemma RouseParked<T>(q: Queues<T>, now: nat)
    requires |q.ready| == PRIORITIES && Placed(q)
    ensures Parked(DoAll(q, RouseMoves(q, 0, now)))
  {
    hide Lists, Do, DoAll, RouseMoves;
    RouseMovesLegal(q, 0, now, q.current);
    LegalAllParked(q, RouseMoves(q, 0, now), q.current);
  }

  /** Who wakes, and who sleeps on. */
  lemma WokenAreDue<T>(q: Queues<T>, now: nat, t: T)
    ensures t in Select(q, q.sleepers, now, true) <==> t in q.sleepers && t in q.until && q.until[t] <= now
    ensures t in Select(q, q.sleepers, now, false) <==> t in q.sleepers && !(t in q.until && q.until[t] <= now)
  {
    SelectMembers(q, q.sleepers, now, true, t);
    SelectMembers(q, q.sleepers, now, false, t);
  }

  ghost function OnlyTicks<T>(n: nat): seq<Op<T>> { if n == 0 then [] else OnlyTicks(n - 1) + [Tick] }

  lemma {:induction false} RunOneMore<T>(s: State<T>, ops: seq<Op<T>>, op: Op<T>)
    requires |s.q.ready| == PRIORITIES
    ensures Run(s, ops + [op]) == Step(Run(s, ops), op)
    decreases |ops|
  {
    hide Step;
    if ops == [] {
      assert (ops + [op])[0] == op && (ops + [op])[1..] == [];
      assert Run(Step(s, op), []) == Step(s, op);
    } else {
      assert (ops + [op])[0] == ops[0] && (ops + [op])[1..] == ops[1..] + [op];
      RunOneMore(Step(s, ops[0]), ops[1..], op);
    }
  }

  lemma TickIsAllowed<T>(s: State<T>)
    ensures Allowed(s, Tick)
  {}

  lemma AwokenCurrent<T>(q: Queues<T>, now: nat)
    requires |q.ready| == PRIORITIES
    ensures Awoken(q, now).current == q.current
  {
    hide Select;
    var rest, out := Select(q, q.sleepers, now, false), Select(q, q.sleepers, now, true);
    PushAllQueues(q.(sleepers := rest), out);
    PushAllPlaces(q.(sleepers := rest), out);
  }

  /** While its slice lasts, ticks leave the thread on the processor and count the slice down. */
  lemma {:induction false} SliceLasts<T>(s: State<T>, n: nat)
    requires Inv(s) && n < s.q.quantum
    ensures |s.q.ready| == PRIORITIES
    ensures var r := Run(s, OnlyTicks(n));
      Inv(r) && r.q.current == s.q.current && r.q.quantum == s.q.quantum - n && r.now == s.now + n
    decreases n
  {
    hide Step, Awoken, ThreadsOk, KeysOk, EventsOk, SemasOk, MutantsOk, ProcessesOk, SleepOk, Allowed;
    InvReady(s);
    if n > 0 {
      SliceLasts(s, n - 1);
      var r := Run(s, OnlyTicks(n - 1));
      RunOneMore(s, OnlyTicks(n - 1), Tick);
      InvReady(r);
      TickIsAllowed(r);
      Ticked(r);
      AwokenCurrent(r.q, r.now + 1);
      StepKeepsInvariant(r, Tick);
    }
  }

  lemma InvReady<T>(s: State<T>)
    requires Inv(s)
    ensures |s.q.ready| == PRIORITIES
  {}

  /** The tick that ends the slice switches the processor: five ticks after it got the processor, a
      thread that did not give it up goes behind its equals if anybody is ready then. */
  lemma SliceEnds<T>(s: State<T>)
    requires Inv(s) && s.q.quantum > 0
    ensures |s.q.ready| == PRIORITIES
    ensures var r, last := Run(s, OnlyTicks(s.q.quantum)), Run(s, OnlyTicks(s.q.quantum - 1));
      last.q.current == s.q.current && SwitchedTo(Awoken(last.q, last.now + 1).(quantum := 0), r.q)
  {
    hide Step, Awoken, SwitchedTo, Inv;
    InvReady(s);
    var n := s.q.quantum;
    SliceLasts(s, n - 1);
    RunOneMore(s, OnlyTicks(n - 1), Tick);
    Ticked(Run(s, OnlyTicks(n - 1)));
  }
}
