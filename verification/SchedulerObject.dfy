/** The scheduler object: the linked structures above hold exactly the queues of the state machine,
    and every call makes exactly its moves. */
module SchedulerObject {
  import opened Threads
  import opened QueueSpec
  import opened QueueLaws
  import opened SchedulerSpec
  import opened SchedulerRuns

  function StateOf(p: Place): ThreadState {
    match p
    case Running => RUNNING
    case Ready(_) => READY
    case Terminated => TERMINATED
    case _ => BLOCKED
  }

  /** A list linked through `sleepNext`. */
  ghost predicate SleepChain(head: KThread?, s: seq<KThread>)
    reads s`sleepNext
  {
    && head == (if s == [] then null else s[0])
    && forall i | 0 <= i < |s| :: s[i].sleepNext == After(s, i)
  }

  ghost function ReadyAt<T>(q: Queues<T>, p: nat): seq<T> { if p < |q.ready| then q.ready[p] else [] }

  class Scheduler {
    const sentinel: seq<KThread>
    var current: KThread
    var quantum: nat
    var sleepHead: KThread?
    ghost var q: Queues<KThread>

    /** Init and Start: three empty rings, and the main thread runs. */
    constructor (main: KThread, ghost objects: set<Obj>)
      modifies main`state
      ensures Rep() && fresh(this) && (forall t | t in sentinel :: fresh(t)) && main.state == RUNNING
      ensures q == BootQueues(main, main.priority, objects)
    {
      hide Rep, BootQueues;
      var s0 := new KThread(0);
      var s1 := new KThread(0);
      var s2 := new KThread(0);
      sentinel := [s0, s1, s2];
      current, quantum, sleepHead := main, QUANTUM_TICKS, null;
      q := BootQueues(main, main.priority, objects);
      new;
      s0.next, s0.prev := s0, s0;
      s1.next, s1.prev := s1, s1;
      s2.next, s2.prev := s2, s2;
      main.state := RUNNING;
      Booted(main, objects);
    }

    lemma Booted(main: KThread, objects: set<Obj>)
      requires SentinelsOk() && main !in sentinel && main.state == RUNNING
      requires forall s | s in sentinel :: s.next == s && s.prev == s
      requires current == main && quantum == QUANTUM_TICKS && sleepHead == null
      requires q == BootQueues(main, main.priority, objects)
      ensures Rep()
    {
      hide Parked, Placed, BootQueues;
      BootFacts(main, main.priority, objects);
      BootParked(main, main.priority, objects);
      RingAlone(sentinel[0]);
      RingAlone(sentinel[1]);
      RingAlone(sentinel[2]);
      hide Ring;
    }

    ghost predicate SentinelsOk() {
      |sentinel| == PRIORITIES && sentinel[0] != sentinel[1] && sentinel[0] != sentinel[2] && sentinel[1] != sentinel[2]
    }

    /** The sentinels are no threads. */
    ghost predicate SentinelsOut(threads: set<KThread>) { forall s | s in sentinel :: s !in threads }

    /** The ready rings, each from its sentinel. */
    ghost predicate RingsOk(ready: seq<seq<KThread>>)
      requires |ready| == PRIORITIES && SentinelsOk()
      reads sentinel`next, sentinel`prev
      reads ready[0]`next, ready[0]`prev, ready[1]`next, ready[1]`prev, ready[2]`next, ready[2]`prev
    {
      Ring([sentinel[0]] + ready[0]) && Ring([sentinel[1]] + ready[1]) && Ring([sentinel[2]] + ready[2])
    }

    ghost predicate StatesOk(place: map<KThread, Place>, pri: map<KThread, nat>)
      reads place.Keys`state, place.Keys`priority
    {
      && (forall t | t in place :: t.state == StateOf(place[t]))
      && (forall t | t in place :: t in pri && t.priority == pri[t])
    }

    ghost predicate DeadlinesOk(sleepers: seq<KThread>, until: map<KThread, nat>)
      reads sleepers`sleepUntil
    {
      forall t | t in sleepers :: t in until && t.sleepUntil == until[t]
    }

    /** The object represents its queues, but perhaps for the sleep list. */
    ghost predicate Core()
      reads this`q, this`current, this`quantum, sentinel`next, sentinel`prev
      reads q.place.Keys`state, q.place.Keys`priority
      reads ReadyAt(q, 0)`next, ReadyAt(q, 0)`prev, ReadyAt(q, 1)`next, ReadyAt(q, 1)`prev, ReadyAt(q, 2)`next,
        ReadyAt(q, 2)`prev
    {
      && |q.ready| == PRIORITIES && Parked(q)
      && SentinelsOk() && SentinelsOut(q.place.Keys)
      && RingsOk(q.ready) && StatesOk(q.place, q.pri)
      && current == q.current && quantum == q.quantum
    }

    /** The object represents its queues. */
    ghost predicate Rep()
      reads this`q, this`current, this`quantum, this`sleepHead, sentinel`next, sentinel`prev
      reads q.place.Keys`state, q.place.Keys`priority, q.sleepers`sleepNext, q.sleepers`sleepUntil
      reads ReadyAt(q, 0)`next, ReadyAt(q, 0)`prev, ReadyAt(q, 1)`next, ReadyAt(q, 1)`prev, ReadyAt(q, 2)`next,
        ReadyAt(q, 2)`prev
    {
      Core() && DeadlinesOk(q.sleepers, q.until) && SleepChain(sleepHead, q.sleepers)
    }

    lemma RepIs()
      requires Rep()
      ensures |q.ready| == PRIORITIES && Parked(q) && SentinelsOk() && SentinelsOut(q.place.Keys)
      ensures RingsOk(q.ready) && StatesOk(q.place, q.pri) && current == q.current && quantum == q.quantum
      ensures DeadlinesOk(q.sleepers, q.until) && SleepChain(sleepHead, q.sleepers)
      ensures q.current in q.place
    {
      hide Parked, RingsOk, SentinelsOut, StatesOk, DeadlinesOk, SleepChain;
      ParkedHasCurrent(q);
    }

    lemma ParkedHasCurrent(qs: Queues<KThread>)
      requires Parked(qs)
      ensures qs.current in qs.place
    {}

    /** The linked structures as they are now represent `r`. */
    ghost method Commit(r: Queues<KThread>)
      requires |r.ready| == PRIORITIES && Parked(r) && SentinelsOk() && SentinelsOut(r.place.Keys)
      requires RingsOk(r.ready) && StatesOk(r.place, r.pri) && current == r.current && quantum == r.quantum
      requires DeadlinesOk(r.sleepers, r.until) && SleepChain(sleepHead, r.sleepers)
      modifies this`q
      ensures Rep() && q == r
    {
      hide Parked, RingsOk, SentinelsOut, StatesOk, DeadlinesOk, SleepChain;
      q := r;
    }

    /** The nodes of a ring. */
    ghost function Cycle(ready: seq<seq<KThread>>, p: nat): seq<KThread>
      requires |ready| == PRIORITIES && |sentinel| == PRIORITIES && p < PRIORITIES
    {
      [sentinel[p]] + ready[p]
    }

    /** Rings with no node in common, and none of them `t`. */
    ghost predicate Apart(ready: seq<seq<KThread>>, t: KThread)
      requires |ready| == PRIORITIES && |sentinel| == PRIORITIES
    {
      && (forall p: nat | p < PRIORITIES :: Distinct(Cycle(ready, p)) && t !in Cycle(ready, p))
      && (forall p: nat, r: nat | p < PRIORITIES && r < PRIORITIES && p != r ::
            forall x | x in Cycle(ready, p) :: x !in Cycle(ready, r))
    }

    /** Two rings were not touched, and the third is a ring again. */
    lemma RingsTogether(ready: seq<seq<KThread>>, pri: nat, list: seq<KThread>)
      requires |ready| == PRIORITIES && SentinelsOk() && pri < PRIORITIES
      requires Ring(Cycle(ready, (pri + 1) % 3)) && Ring(Cycle(ready, (pri + 2) % 3)) && Ring([sentinel[pri]] + list)
      ensures RingsOk(ready[pri := list])
    {
      hide Ring;
      assert pri == 0 || pri == 1 || pri == 2;
    }

    method QueueInsertLast(pri: nat, t: KThread, ghost ready: seq<seq<KThread>>)
      requires |ready| == PRIORITIES && SentinelsOk() && RingsOk(ready) && Apart(ready, t)
      requires pri < PRIORITIES
      modifies t`next, t`prev, sentinel`next, sentinel`prev, ready[pri]`next, ready[pri]`prev
      ensures RingsOk(ready[pri := ready[pri] + [t]])
    {
      ghost var r := ready[pri];
      ghost var d, e := Cycle(ready, (pri + 1) % 3), Cycle(ready, (pri + 2) % 3);
      assert [sentinel[pri]] + (r + [t]) == Cycle(ready, pri) + [t];
      assert Ring(d) && Ring(e) && Ring(Cycle(ready, pri));
      RingPushBackApart(sentinel[pri], t, r, d, e);
      RingsTogether(ready, pri, r + [t]);
    }

    /** QueuePushBack. */
    method QueuePushBack(t: KThread, ghost ready: seq<seq<KThread>>)
      requires |ready| == PRIORITIES && SentinelsOk() && RingsOk(ready) && Apart(ready, t)
      modifies t`next, t`prev, sentinel`next, sentinel`prev
      modifies ready[ClampPri(t.priority)]`next, ready[ClampPri(t.priority)]`prev
      ensures RingsOk(ready[ClampPri(t.priority) := ready[ClampPri(t.priority)] + [t]])
    {
      QueueInsertLast(ClampPri(t.priority), t, ready);
    }

    ghost predicate RingsApart(ready: seq<seq<KThread>>)
      requires |ready| == PRIORITIES && |sentinel| == PRIORITIES
    {
      && (forall p: nat | p < PRIORITIES :: Distinct(Cycle(ready, p)))
      && (forall p: nat, r: nat | p < PRIORITIES && r < PRIORITIES && p != r ::
            forall x | x in Cycle(ready, p) :: x !in Cycle(ready, r))
    }

    method QueueRemoveFirst(pri: nat, ghost ready: seq<seq<KThread>>) returns (t: KThread)
      requires |ready| == PRIORITIES && SentinelsOk() && RingsOk(ready) && RingsApart(ready)
      requires pri < PRIORITIES && ready[pri] != []
      modifies sentinel`next, sentinel`prev, ready[pri]`next, ready[pri]`prev
      ensures t == ready[pri][0] && t.next == null && t.prev == null
      ensures RingsOk(ready[pri := ready[pri][1..]])
    {
      ghost var c := Cycle(ready, pri);
      ghost var d, e := Cycle(ready, (pri + 1) % 3), Cycle(ready, (pri + 2) % 3);
      assert Ring(c) && Ring(d) && Ring(e) && c[0].next == c[Succ(0, |c|)];
      t := sentinel[pri].next;
      assert t == c[1];
      RingRemoveApart(t, c, 1, d, e);
      assert [sentinel[pri]] + ready[pri][1..] == c[..1] + c[2..];
      RingsTogether(ready, pri, ready[pri][1..]);
    }

    /** QueuePop: unlinks the first thread of the highest queue that is not empty. */
    method QueuePop(ghost ready: seq<seq<KThread>>) returns (t: KThread?)
      requires |ready| == PRIORITIES && SentinelsOk() && RingsOk(ready) && RingsApart(ready)
      modifies sentinel`next, sentinel`prev
      modifies ready[0]`next, ready[0]`prev, ready[1]`next, ready[1]`prev, ready[2]`next, ready[2]`prev
      ensures t == null <==> Highest(ready) == PRIORITIES
      ensures t == null ==> RingsOk(ready)
      ensures t != null ==> t == ready[Highest(ready)][0] && t.next == null && t.prev == null
      ensures t != null ==> RingsOk(ready[Highest(ready) := ready[Highest(ready)][1..]])
    {
      var pri := PRIORITIES;
      while pri > 0
        invariant 0 <= pri <= PRIORITIES
        invariant RingsOk(ready)
        invariant forall k | pri <= k < PRIORITIES :: ready[k] == []
      {
        pri := pri - 1;
        var sen := sentinel[pri];
        ghost var c := Cycle(ready, pri);
        assert Ring(c) && c[0].next == c[Succ(0, |c|)];
        assert |c| > 1 ==> c[1] != c[0];
        if sen.next != sen {
          assert Highest(ready) == pri;
          t := QueueRemoveFirst(pri, ready);
          return;
        }
      }
      t := null;
    }

    // ---- The rings of a representation are apart ----------------------------------------

    lemma ReadyThreads(qs: Queues<KThread>, p: nat)
      requires Lists(qs) && p < PRIORITIES
      ensures Distinct(qs.ready[p]) && forall t | t in qs.ready[p] :: t in qs.place && qs.place[t] == Ready(p)
    {
      assert HasList(qs, Ready(p)) && ListAt(qs, Ready(p)) == qs.ready[p];
    }

    lemma RingsAreApart(qs: Queues<KThread>)
      requires |qs.ready| == PRIORITIES && Parked(qs) && SentinelsOk()
      requires SentinelsOut(qs.place.Keys)
      ensures qs.current in qs.place
      ensures RingsApart(qs.ready)
      ensures forall p: nat, t | p < PRIORITIES && t in qs.ready[p] :: t in qs.place
    {
      hide Lists, Cycle, Distinct, SentinelsOut;
      forall p: nat | p < PRIORITIES
        ensures Distinct(Cycle(qs.ready, p)) && forall t | t in qs.ready[p] :: t in qs.place
      {
        CycleIs(qs, p);
      }
      forall p: nat, r: nat, x | p < PRIORITIES && r < PRIORITIES && p != r && x in Cycle(qs.ready, p)
        ensures x !in Cycle(qs.ready, r)
      {
        CycleIs(qs, p);
        CycleIs(qs, r);
      }
    }

    lemma CycleIs(qs: Queues<KThread>, p: nat)
      requires |qs.ready| == PRIORITIES && Lists(qs) && SentinelsOk() && SentinelsOut(qs.place.Keys) && p < PRIORITIES
      ensures Distinct(Cycle(qs.ready, p)) && forall t | t in qs.ready[p] :: t in qs.place
      ensures forall x | x in Cycle(qs.ready, p) :: x == sentinel[p] || (x in qs.place && qs.place[x] == Ready(p))
      ensures forall r: nat | r < PRIORITIES && r != p :: sentinel[r] != sentinel[p]
      ensures forall r: nat | r < PRIORITIES :: sentinel[r] !in qs.place
    {
      assert forall p: nat | p < PRIORITIES :: sentinel[p] in sentinel;
      hide Lists;
      ReadyThreads(qs, p);
    }

    /** The current thread, once it is out of the rings, may be pushed. */
    lemma CurrentIsApart(qs: Queues<KThread>)
      requires |qs.ready| == PRIORITIES && SentinelsOk() && Parked(qs)
      requires SentinelsOut(qs.place.Keys)
      ensures Apart(Popped(qs), qs.current)
    {
      hide Lists, Highest, Cycle, RingsApart;
      RingsAreApart(qs);
      PoppedParts(qs);
      PopApart(qs.ready, Popped(qs));
      assert RingsApart(Popped(qs));
      forall p: nat | p < PRIORITIES ensures qs.current !in Cycle(Popped(qs), p) { CycleIs(qs, p); }
      ApartIs(Popped(qs), qs.current);
    }

    lemma PoppedParts(qs: Queues<KThread>)
      requires |qs.ready| == PRIORITIES
      ensures forall p: nat | p < PRIORITIES ::
        Popped(qs)[p] == qs.ready[p] || (qs.ready[p] != [] && Popped(qs)[p] == qs.ready[p][1..])
    {}

    lemma ApartIs(ready: seq<seq<KThread>>, t: KThread)
      requires |ready| == PRIORITIES && |sentinel| == PRIORITIES && RingsApart(ready)
      requires forall p: nat | p < PRIORITIES :: t !in Cycle(ready, p)
      ensures Apart(ready, t)
    {}

    lemma PopApart(ready: seq<seq<KThread>>, popped: seq<seq<KThread>>)
      requires |ready| == |popped| == PRIORITIES && SentinelsOk() && RingsApart(ready)
      requires forall p: nat | p < PRIORITIES :: popped[p] == ready[p] || (ready[p] != [] && popped[p] == ready[p][1..])
      ensures RingsApart(popped)
      ensures forall p: nat, t | p < PRIORITIES && t in Cycle(popped, p) :: t in Cycle(ready, p)
    {
      forall p: nat, t | p < PRIORITIES && t in Cycle(popped, p) ensures t in Cycle(ready, p) {}
      forall p: nat | p < PRIORITIES ensures Distinct(Cycle(popped, p)) {
        assert Distinct(Cycle(ready, p));
        if popped[p] == ready[p] {
          assert Cycle(popped, p) == Cycle(ready, p);
        } else {
          DistinctTail(sentinel[p], ready[p]);
        }
      }
    }

    // ---- Scheduling --------------------------------------------------------------------------

    /** Pushes the thread that loses the processor, if it was still running. */
    method Requeue(prev: KThread, ghost ready: seq<seq<KThread>>)
      requires |ready| == PRIORITIES && SentinelsOk() && RingsOk(ready) && Apart(ready, prev)
      modifies prev`state, prev`next, prev`prev, sentinel`next, sentinel`prev
      modifies ready[ClampPri(prev.priority)]`next, ready[ClampPri(prev.priority)]`prev
      ensures var c := ClampPri(prev.priority);
        RingsOk(if old(prev.state) == RUNNING then ready[c := ready[c] + [prev]] else ready)
      ensures prev.state == if old(prev.state) == RUNNING then READY else old(prev.state)
    {
      hide Ring, Apart;
      if prev.state == RUNNING {
        prev.state := READY;
        QueuePushBack(prev, ready);
      }
    }

    /** The first half of a switch: the next thread leaves its queue and the current one joins its own. */
    method Exchange() returns (next: KThread?)
      requires Rep()
      modifies q.current`state, q.place.Keys`next, q.place.Keys`prev, sentinel`next, sentinel`prev
      ensures next == null <==> Highest(q.ready) == PRIORITIES
      ensures next == null ==> Rep() && q == Dispatch(q)
      ensures next != null ==> next == Next(q)
      ensures next != null && old(q.current.state) == RUNNING ==> q.current.state == READY
      ensures next != null && old(q.current.state) != RUNNING ==> q.current.state == old(q.current.state)
      ensures RingsOk(Dispatch(q).ready)
    {
      hide Parked, Highest, Dispatch, RingsOk, Popped, Next, RingsApart, Apart, Level, SleepChain, DeadlinesOk;
      RingsAreApart(q);
      CurrentIsApart(q);
      next := QueuePop(q.ready);
      if next == null {
        NoSwitch(q);
      } else {
        PoppedIs(q);
        SwitchFacts(q);
        LevelIs(q, current);
        Requeue(current, Popped(q));
      }
    }

    /** The second half: the next thread gets the processor. */
    method Activate(next: KThread)
      requires |q.ready| == PRIORITIES && Parked(q) && SentinelsOk() && SentinelsOut(q.place.Keys)
      requires Highest(q.ready) < PRIORITIES && next == Next(q) && RingsOk(Dispatch(q).ready)
      requires forall t | t in q.place :: t in q.pri && t.priority == q.pri[t]
      requires forall t | t in q.place && t != next ::
        t.state == StateOf(if t == q.current && q.place[t] == Running then Ready(0) else q.place[t])
      requires SleepChain(sleepHead, q.sleepers) && DeadlinesOk(q.sleepers, q.until)
      modifies this`current, this`quantum, this`q, next`state
      ensures Rep() && q == Dispatch(old(q))
    {
      hide Parked, Placed, Level, Highest, Dispatch, RingsOk, Popped, Next, SleepChain, DeadlinesOk, SentinelsOut;
      SwitchFacts(q);
      SwitchPlaced(q);
      current := next;
      next.state := RUNNING;
      quantum := QUANTUM_TICKS;
      q := Dispatch(q);
    }

    /** ScheduleInternal.  The branch of the source for a popped thread that is already current is
        unreachable: the current thread is in no ready queue. */
    method ScheduleInternal()
      requires Rep()
      modifies this`current, this`quantum, this`q
      modifies q.place.Keys`state, q.place.Keys`next, q.place.Keys`prev, sentinel`next, sentinel`prev
      ensures Rep() && q == Dispatch(old(q))
    {
      hide Rep, Core, Parked, Level, Highest, Dispatch, RingsOk, Popped, Next, SleepChain, DeadlinesOk, SentinelsOut;
      RepIs();
      RunningIs(q);
      var next := Exchange();
      if next != null {
        SwitchFacts(q);
        Activate(next);
      }
    }

    lemma RunningIs(qs: Queues<KThread>)
      requires Parked(qs)
      ensures qs.current in qs.place && forall t | t in qs.place && qs.place[t] == Running :: t == qs.current
    {}

    lemma LevelIs(qs: Queues<KThread>, t: KThread)
      requires t in qs.pri
      ensures Level(qs, t) == ClampPri(qs.pri[t])
    {}

    lemma NoSwitch(qs: Queues<KThread>)
      requires |qs.ready| == PRIORITIES && Highest(qs.ready) == PRIORITIES
      ensures Dispatch(qs) == qs
    {}

    lemma PoppedIs(qs: Queues<KThread>)
      requires |qs.ready| == PRIORITIES && Highest(qs.ready) < PRIORITIES
      ensures qs.ready[Highest(qs.ready)] != []
      ensures Popped(qs) == qs.ready[Highest(qs.ready) := qs.ready[Highest(qs.ready)][1..]]
      ensures Next(qs) == qs.ready[Highest(qs.ready)][0]
    {}

    // ---- Threads that become ready --------------------------------------------------------------

    lemma ArrivalIsApart(qs: Queues<KThread>, t: KThread)
      requires |qs.ready| == PRIORITIES && SentinelsOk() && Parked(qs)
      requires SentinelsOut(qs.place.Keys) && t !in sentinel
      requires t in qs.place ==> !qs.place[t].Ready?
      ensures Apart(qs.ready, t)
      ensures forall p: nat, x | p < PRIORITIES && x in qs.ready[p] :: x in qs.place
    {
      hide Lists, Cycle, RingsApart;
      RingsAreApart(qs);
      forall p: nat | p < PRIORITIES ensures t !in Cycle(qs.ready, p) {
        CycleIs(qs, p);
        assert sentinel[p] in sentinel;
      }
      ApartIs(qs.ready, t);
    }

    method PushReady(t: KThread, ghost ready: seq<seq<KThread>>)
      requires |ready| == PRIORITIES && SentinelsOk() && RingsOk(ready) && Apart(ready, t)
      modifies t`state, t`next, t`prev, sentinel`next, sentinel`prev
      modifies ready[ClampPri(t.priority)]`next, ready[ClampPri(t.priority)]`prev
      ensures RingsOk(ready[ClampPri(t.priority) := ready[ClampPri(t.priority)] + [t]])
      ensures t.state == READY
    {
      hide Ring, Apart;
      t.state := READY;
      QueuePushBack(t, ready);
    }

    /** The queue a thread that becomes ready is pushed on. */
    lemma ArrivalLevel(qs: Queues<KThread>, m: Move<KThread>, t: KThread, pri: nat)
      requires if m.Admit? then pri == m.pri else t in qs.pri && pri == qs.pri[t]
      ensures ClampPri(pri) == if m.Admit? then ClampPri(m.pri) else Level(qs, t)
    {}

    lemma OneMoreOut(threads: set<KThread>, t: KThread)
      requires SentinelsOut(threads) && t !in sentinel
      ensures SentinelsOut(threads + {t})
    {}

    /** Marks a thread READY and pushes it, as UnblockThread, WakeSleepers and AddThread do. */
    method MakeReady(t: KThread, ghost m: Move<KThread>)
      requires Core() && Legal(q, m) && Readies(q, m, t) && t !in sentinel
      requires m.Admit? ==> t.priority == m.pri
      modifies this`q, t`state, t`next, t`prev
      modifies q.place.Keys`next, q.place.Keys`prev, sentinel`next, sentinel`prev
      ensures Core() && q == Do(old(q), m)
    {
      hide Parked, Legal, Do, Ring, Apart, RingsOk, Level, Readies, SentinelsOut;
      OneMoreOut(q.place.Keys, t);
      ArriveFacts(q, m, t);
      ArrivalIsApart(q, t);
      ArrivalLevel(q, m, t, t.priority);
      MoveParked(q, m);
      PushReady(t, q.ready);
      ghost var r := Do(q, m);
      assert StatesOk(r.place, r.pri);
      q := r;
    }

    /** MakeReady beside a sleep list. */
    method MakeReadyAwake(t: KThread, ghost m: Move<KThread>, ghost s: seq<KThread>, ghost until: map<KThread, nat>)
      requires |q.ready| == PRIORITIES && Core() && Legal(q, m) && Readies(q, m, t) && t !in sentinel
      requires m.Admit? ==> t.priority == m.pri
      requires s == Do(q, m).sleepers && until == Do(q, m).until && SleepChain(sleepHead, s) && DeadlinesOk(s, until)
      modifies this`q, t`state, t`next, t`prev
      modifies q.place.Keys`next, q.place.Keys`prev, sentinel`next, sentinel`prev
      ensures Rep() && q == Do(old(q), m)
    {
      hide Core, Do, Legal, Readies, SleepChain, DeadlinesOk;
      MakeReady(t, m);
    }

    lemma ThreadIsNoSentinel(qs: Queues<KThread>, t: KThread)
      requires SentinelsOut(qs.place.Keys) && t in qs.place
      ensures t !in sentinel
    {}

    lemma SleepersAreThreads(qs: Queues<KThread>)
      requires Lists(qs)
      ensures NoDup(qs.sleepers) && forall t | t in qs.sleepers :: t in qs.place && qs.place[t] == Asleep
    {
      assert HasList(qs, Asleep) && ListAt(qs, Asleep) == qs.sleepers;
    }

    /** A chain whose node `k` is bypassed. */
    lemma ChainWithout(head: KThread?, s: seq<KThread>, k: nat)
      requires k < |s| && head == if k == 0 then After(s, 0) else s[0]
      requires forall i | 0 <= i < |s| && i != k :: s[i].sleepNext == if i + 1 == k then After(s, k) else After(s, i)
      ensures SleepChain(head, s[..k] + s[k + 1..])
    {
      var r := s[..k] + s[k + 1..];
      forall i | 0 <= i < |r| ensures r[i].sleepNext == After(r, i) {
        var j := if i < k then i else i + 1;
        assert r[i] == s[j] && j != k;
      }
    }

    /** Unlinks the sleeper after `at`, or the first one. */
    method UnlinkSleeper(at: KThread?, t: KThread, ghost s: seq<KThread>, ghost k: nat)
      requires SleepChain(sleepHead, s) && NoDup(s) && k < |s| && t == s[k]
      requires if k == 0 then at == null else at == s[k - 1]
      modifies this`sleepHead, s`sleepNext, t`sleepUntil
      ensures SleepChain(sleepHead, s[..k] + s[k + 1..])
      ensures t.sleepNext == null
    {
      hide After;
      assert t.sleepNext == After(s, k) && forall i | 0 <= i < |s| && i != k :: s[i] != t;
      if at == null {
        sleepHead := t.sleepNext;
      } else {
        assert at in s && forall i | 0 <= i < |s| && i != k - 1 :: s[i] != at;
        at.sleepNext := t.sleepNext;
      }
      t.sleepNext := null;
      t.sleepUntil := 0;
      ChainWithout(sleepHead, s, k);
    }

    method UnlinkFromCore(at: KThread?, t: KThread, ghost k: nat, ghost s: seq<KThread>)
      requires Rep() && NoDup(q.sleepers) && k < |q.sleepers| && t == q.sleepers[k]
      requires if k == 0 then at == null else at == q.sleepers[k - 1]
      requires s == q.sleepers[..k] + q.sleepers[k + 1..] && forall x | x in s :: x in q.sleepers && x != t
      modifies this`sleepHead, q.sleepers`sleepNext, t`sleepUntil
      ensures Core() && SleepChain(sleepHead, s) && DeadlinesOk(s, q.until)
    {
      hide Parked, SleepChain, NoDup, RingsOk, SentinelsOut, StatesOk;
      UnlinkSleeper(at, t, q.sleepers, k);
    }

    /** What the sleep list loses when the sleeper at `k` is roused. */
    lemma RouseFacts(qs: Queues<KThread>, k: nat, t: KThread)
      requires |qs.ready| == PRIORITIES && Parked(qs) && qs.place[qs.current] == Running && k < |qs.sleepers|
      requires t == qs.sleepers[k]
      ensures Legal(qs, Rouse(k)) && Readies(qs, Rouse(k), t)
      ensures t in qs.sleepers && NoDup(qs.sleepers) && t in qs.place
      ensures var r := Do(qs, Rouse(k));
        && r.sleepers == qs.sleepers[..k] + qs.sleepers[k + 1..] && r.until == qs.until
        && forall x | x in r.sleepers :: x in qs.sleepers && x != t
    {
      SleepersAreThreads(qs);
      hide Lists;
      assert Without(qs.sleepers[..k] + qs.sleepers[k + 1..], qs.sleepers, t);
      WithoutFacts(qs.sleepers[..k] + qs.sleepers[k + 1..], qs.sleepers, t);
    }

    /** The body of the loop of WakeSleepers, for a sleeper that is due. */
    method WakeSleeper(at: KThread?, t: KThread, ghost k: nat)
      requires |q.ready| == PRIORITIES && Rep() && q.place[q.current] == Running && k < |q.sleepers|
      requires t == q.sleepers[k]
      requires if k == 0 then at == null else at == q.sleepers[k - 1]
      modifies this`q, this`sleepHead, q.sleepers`sleepNext, t`sleepUntil, t`state
      modifies q.place.Keys`next, q.place.Keys`prev, sentinel`next, sentinel`prev
      ensures Rep() && q == Do(old(q), Rouse(k))
    {
      RouseFacts(q, k, t);
      ThreadIsNoSentinel(q, t);
      hide Core, SleepChain, DeadlinesOk, Do, NoDup, Legal, Readies;
      ghost var s := q.sleepers[..k] + q.sleepers[k + 1..];
      UnlinkFromCore(at, t, k, s);
      MakeReadyAwake(t, Rouse(k), s, q.until);
    }

    // ---- The clock -------------------------------------------------------------------------------

    /** Where the pass over the sleep list stands: `at` is the link before the sleeper at `k`. */
    ghost predicate Cursor(at: KThread?, k: nat)
      reads this`q
    {
      k <= |q.sleepers| && (if k == 0 then at == null else at == q.sleepers[k - 1])
    }

    ghost predicate CurrentRuns()
      reads this`q
    {
      |q.ready| == PRIORITIES && q.current in q.place && q.place[q.current] == Running
    }

    lemma RouseKeepsCurrent(qs: Queues<KThread>, k: nat)
      requires |qs.ready| == PRIORITIES && Parked(qs) && qs.place[qs.current] == Running && k < |qs.sleepers|
      ensures var r := Do(qs, Rouse(k));
        && r.current == qs.current && r.current in r.place && r.place[r.current] == Running
        && r.place.Keys == qs.place.Keys && |r.sleepers| == |qs.sleepers| - 1
          && (k > 0 ==> r.sleepers[k - 1] == qs.sleepers[k - 1])
        && (forall x | x in r.sleepers :: x in qs.sleepers) && r.quantum == qs.quantum
    {
      RouseFacts(qs, k, qs.sleepers[k]);
      ArriveFacts(qs, Rouse(k), qs.sleepers[k]);
      hide Lists;
    }

    lemma SleeperAt(s: seq<KThread>, k: nat, head: KThread?, at: KThread?)
      requires SleepChain(head, s) && k <= |s| && (if k == 0 then at == null else at == s[k - 1])
      ensures (if at == null then head else at.sleepNext) == if k < |s| then s[k] else null
    {}

    lemma DueIs(qs: Queues<KThread>, k: nat, now: nat)
      requires DeadlinesOk(qs.sleepers, qs.until) && k < |qs.sleepers|
      ensures Due(qs, qs.sleepers[k], now) <==> qs.sleepers[k].sleepUntil <= now
    {
      assert qs.sleepers[k] in qs.sleepers;
    }

    lemma RouseMovesStep(qs: Queues<KThread>, k: nat, now: nat)
      requires |qs.ready| == PRIORITIES && k < |qs.sleepers|
      ensures Due(qs, qs.sleepers[k], now) && k <= |Do(qs, Rouse(k)).sleepers| ==>
        DoAll(qs, RouseMoves(qs, k, now)) == DoAll(Do(qs, Rouse(k)), RouseMoves(Do(qs, Rouse(k)), k, now))
      ensures !Due(qs, qs.sleepers[k], now) ==>
        DoAll(qs, RouseMoves(qs, k, now)) == DoAll(qs, RouseMoves(qs, k + 1, now))
    {
      if Due(qs, qs.sleepers[k], now) {
        var ms := RouseMoves(qs, k, now);
        assert ms[0] == Rouse(k) && ms[1..] == RouseMoves(Do(qs, Rouse(k)), k, now);
      }
    }

    lemma SleepersInPlace(qs: Queues<KThread>)
      requires Parked(qs)
      ensures forall t | t in qs.sleepers :: t in qs.place
    {
      SleepersAreThreads(qs);
    }

    /** WakeSleepers. */
    method WakeSleepers(now: nat)
      requires Rep() && CurrentRuns()
      modifies this`q, this`sleepHead
      modifies q.place.Keys`state, q.place.Keys`next, q.place.Keys`prev, q.place.Keys`sleepNext, q.place.Keys`sleepUntil
      modifies sentinel`next, sentinel`prev
      ensures Rep() && CurrentRuns() && q == DoAll(old(q), RouseMoves(old(q), 0, now))
    {
      hide Core, SleepChain, DeadlinesOk, Do, DoAll, RouseMoves, Due;
      ghost var goal := DoAll(q, RouseMoves(q, 0, now));
      ghost var k := 0;
      var at: KThread? := null;
      while true
        invariant Rep() && CurrentRuns() && Cursor(at, k) && q.place.Keys == old(q.place.Keys)
        invariant DoAll(q, RouseMoves(q, k, now)) == goal
        decreases |q.sleepers| - k
      {
        SleeperAt(q.sleepers, k, sleepHead, at);
        var t := if at == null then sleepHead else at.sleepNext;
        if t == null { break; }
        CoreIsParked();
        SleepersInPlace(q);
        assert t in q.sleepers;
        DueIs(q, k, now);
        RouseMovesStep(q, k, now);
        if t.sleepUntil <= now {
          RouseKeepsCurrent(q, k);
          WakeSleeper(at, t, k);
        } else {
          at := t;
          k := k + 1;
        }
      }
      NoMoreSleepers(q, now);
    }

    lemma CoreIsParked()
      requires Core()
      ensures Parked(q) && SentinelsOk() && SentinelsOut(q.place.Keys)
    {}

    lemma NoMoreSleepers(qs: Queues<KThread>, now: nat)
      requires |qs.ready| == PRIORITIES
      ensures DoAll(qs, RouseMoves(qs, |qs.sleepers|, now)) == qs
    {}

    /** Tick, with the new tick count of the timer. */
    method Tick(now: nat)
      requires Rep() && CurrentRuns() && now > 0
      modifies this`q, this`current, this`quantum, this`sleepHead
      modifies q.place.Keys`state, q.place.Keys`next, q.place.Keys`prev, q.place.Keys`sleepNext, q.place.Keys`sleepUntil
      modifies sentinel`next, sentinel`prev
      ensures Rep() && q == DoAll(old(q), Moves(old(q), now - 1, Advance))
    {
      hide Parked, SleepChain, DeadlinesOk, RingsOk, StatesOk, SentinelsOut, Do, DoAll, RouseMoves, Moves, Dispatch;
      ghost var q0 := q;
      WakingKeeps(q0, now);
      AfterWaking(q0, now);
      WakeSleepers(now);
      if quantum > 0 {
        BurnKeepsRep(q);
        quantum := quantum - 1;
        q := Do(q, Burn);
        if quantum == 0 {
          ScheduleInternal();
        }
      }
    }

    lemma BurnKeepsRep(qs: Queues<KThread>)
      requires |qs.ready| == PRIORITIES && Parked(qs) && qs.quantum > 0
      ensures Parked(Do(qs, Burn)) && Do(qs, Burn) == qs.(quantum := qs.quantum - 1)
    {
      assert Legal(qs, Burn);
      MoveParked(qs, Burn);
    }

    lemma DueAreThreads(q0: Queues<KThread>, now: nat)
      requires |q0.ready| == PRIORITIES && Parked(q0)
      ensures forall t | t in Select(q0, q0.sleepers, now, true) :: t in q0.place
    {
      SleepersInPlace(q0);
      hide Parked;
      var up := Select(q0, q0.sleepers, now, true);
      forall t | t in up ensures t in q0.place { SelectMembers(q0, q0.sleepers, now, true, t); }
    }

    lemma SameKeys(a: map<KThread, Place>, b: map<KThread, Place>, ts: seq<KThread>)
      requires (forall t :: t in b <==> t in a || t in ts) && forall t | t in ts :: t in a
      ensures a.Keys == b.Keys
    {}

    lemma WakingKeeps(q0: Queues<KThread>, now: nat)
      requires |q0.ready| == PRIORITIES && Parked(q0)
      ensures var r := DoAll(q0, RouseMoves(q0, 0, now)); r.quantum == q0.quantum && r.place.Keys == q0.place.Keys
    {
      DueAreThreads(q0, now);
      hide *;
      RouseMovesExact(q0, 0, now);
      assert q0.sleepers[0..] == q0.sleepers;
      var up := Select(q0, q0.sleepers, now, true);
      var awake := q0.(sleepers := q0.sleepers[..0] + Select(q0, q0.sleepers, now, false));
      PushAllPlaces(awake, up);
      SameKeys(q0.place, PushAll(awake, up).place, up);
    }

    /** The moves of a tick, after those of WakeSleepers. */
    lemma AfterWaking(q0: Queues<KThread>, now: nat)
      requires |q0.ready| == PRIORITIES && now > 0
      requires DoAll(q0, RouseMoves(q0, 0, now)).quantum == q0.quantum
      ensures var r := DoAll(q0, RouseMoves(q0, 0, now));
        DoAll(q0, Moves(q0, now - 1, Advance)) ==
          (if r.quantum == 0 then r else if r.quantum == 1 then Dispatch(Do(r, Burn)) else Do(r, Burn))
    {
      var ms := RouseMoves(q0, 0, now);
      var r := DoAll(q0, ms);
      if r.quantum == 0 {
        assert ms + [] == ms;
      } else if r.quantum == 1 {
        DoAllAppend(q0, ms, [Burn, Switch]);
        ThenSwitch(r, Burn);
      } else {
        DoAllAppend(q0, ms, [Burn]);
        OneMove(r, Burn);
      }
    }

    // ---- The current thread leaves the processor ------------------------------------------------

    lemma LeaveFacts(qs: Queues<KThread>, m: Move<KThread>)
      requires |qs.ready| == PRIORITIES && Parked(qs) && Legal(qs, m) && (m.Wait? || m.Finish? || m.Doze?)
      ensures var r := Do(qs, m);
        && Parked(r) && r.place
          == qs.place[qs.current := if m.Wait? then Waiting(m.obj) else if m.Doze? then Asleep else Terminated]
        && r.ready == qs.ready && r.current == qs.current && r.pri == qs.pri && r.quantum == qs.quantum
        && (m.Doze? ==> r.until == qs.until[qs.current := m.until])
        && (!m.Doze? ==> r.until == qs.until)
        && r.sleepers == (if m.Doze? then [qs.current] + qs.sleepers else qs.sleepers)
        && qs.current !in qs.sleepers && qs.current in qs.place
        && r.place.Keys == qs.place.Keys
    {
      MoveParked(qs, m);
      SleepersAreThreads(qs);
      hide Lists;
    }

    method MarkCurrent(state: ThreadState, ghost to: Place, ghost place: map<KThread, Place>,
                       ghost pri: map<KThread, nat>)
      requires StatesOk(place, pri) && current in place && StateOf(to) == state
      modifies current`state
      ensures StatesOk(place[current := to], pri)
    {
      current.state := state;
    }

    lemma LeftState(m: Move<KThread>, state: ThreadState)
      requires (m.Wait? && state == BLOCKED) || (m.Finish? && state == TERMINATED)
      ensures StateOf(if m.Wait? then Waiting(m.obj) else Terminated) == state
    {}

    method Leave(ghost m: Move<KThread>, state: ThreadState)
      requires Rep() && CurrentRuns() && Legal(q, m)
      requires (m.Wait? && state == BLOCKED) || (m.Finish? && state == TERMINATED)
      modifies this`q, q.current`state
      ensures Rep() && q == Do(old(q), m)
    {
      hide Rep, Core, Parked, RingsOk, SentinelsOut, StatesOk, DeadlinesOk, SleepChain, Do, Legal, CurrentRuns,
        StateOf;
      RepIs();
      LeaveFacts(q, m);
      LeftState(m, state);
      MarkCurrent(state, if m.Wait? then Waiting(m.obj) else Terminated, q.place, q.pri);
      Commit(Do(q, m));
    }

    /** BlockCurrentThread, once the thread is in the wait list of an object. */
    method BlockCurrentThread(ghost o: Obj, ghost front: bool)
      requires Rep() && CurrentRuns() && o in q.waiters
      modifies this`q, q.current`state
      ensures Rep() && q == Do(old(q), Wait(o, front))
    {
      Leave(Wait(o, front), BLOCKED);
    }

    /** The current thread is marked TERMINATED. */
    method FinishCurrentThread()
      requires Rep() && CurrentRuns()
      modifies this`q, q.current`state
      ensures Rep() && q == Do(old(q), Finish)
    {
      Leave(Finish, TERMINATED);
    }

    method LinkSleeper(t: KThread, until: nat, ghost s: seq<KThread>, ghost deadlines: map<KThread, nat>)
      requires SleepChain(sleepHead, s) && DeadlinesOk(s, deadlines) && t !in s
      modifies this`sleepHead, t`sleepNext, t`sleepUntil
      ensures SleepChain(sleepHead, [t] + s) && DeadlinesOk([t] + s, deadlines[t := until])
    {
      t.sleepUntil := until;
      t.sleepNext := sleepHead;
      sleepHead := t;
      ghost var r := [t] + s;
      forall i | 0 <= i < |r| ensures r[i].sleepNext == After(r, i) {
        if i > 0 { assert r[i] == s[i - 1] && old(s[i - 1].sleepNext) == After(s, i - 1); }
      }
    }

    lemma DozeIsLegal(qs: Queues<KThread>, until: nat)
      requires qs.current in qs.place && qs.place[qs.current] == Running
      ensures Legal(qs, Move.Doze(until))
    {}

    method BlockSleeper(until: nat, ghost s: seq<KThread>, ghost deadlines: map<KThread, nat>,
                        ghost place: map<KThread, Place>, ghost pri: map<KThread, nat>)
      requires SleepChain(sleepHead, s) && DeadlinesOk(s, deadlines) && current !in s
      requires StatesOk(place, pri) && current in place
      modifies this`sleepHead, current`sleepNext, current`sleepUntil, current`state
      ensures SleepChain(sleepHead, [current] + s) && DeadlinesOk([current] + s, deadlines[current := until])
      ensures StatesOk(place[current := Asleep], pri)
    {
      hide SleepChain, DeadlinesOk;
      LinkSleeper(current, until, s, deadlines);
      current.state := BLOCKED;
    }

    method Doze(until: nat)
      requires Rep() && CurrentRuns()
      modifies this`q, this`sleepHead, q.current`state, q.current`sleepNext, q.current`sleepUntil
      ensures Rep() && q == Do(old(q), Move.Doze(until))
    {
      hide Rep, Core, Parked, RingsOk, SentinelsOut, StatesOk, DeadlinesOk, SleepChain, Do, Legal;
      RepIs();
      DozeIsLegal(q, until);
      LeaveFacts(q, Move.Doze(until));
      BlockSleeper(until, q.sleepers, q.until, q.place, q.pri);
      Commit(Do(q, Move.Doze(until)));
    }

    /** Sleep. */
    method Sleep(ms: nat, now: nat)
      requires Rep() && CurrentRuns()
      modifies this`q, this`current, this`quantum, this`sleepHead
      modifies q.place.Keys`state, q.place.Keys`next, q.place.Keys`prev, q.place.Keys`sleepNext, q.place.Keys`sleepUntil
      modifies sentinel`next, sentinel`prev
      ensures Rep() && q == DoAll(old(q), if ms == 0 then [] else [Move.Doze(now + SleepTicks(ms)), Switch])
    {
      hide Core, SleepChain, DeadlinesOk, Do, Dispatch;
      ghost var q0 := q;
      CoreIsParked();
      if ms == 0 { return; }
      var ticks := (ms * 100 + 999) / 1000;
      if ticks == 0 { ticks := 1; }
      ThenSwitch(q, Move.Doze(now + ticks));
      DozeKeys(q, now + ticks);
      Doze(now + ticks);
      ScheduleInternal();
    }

    lemma DozeKeys(qs: Queues<KThread>, until: nat)
      requires |qs.ready| == PRIORITIES && qs.current in qs.place
      ensures Do(qs, Move.Doze(until)).place.Keys == qs.place.Keys
    {}

    // ---- Other threads become ready ------------------------------------------------------------------

    lemma WakeFacts(qs: Queues<KThread>, o: Obj)
      requires |qs.ready| == PRIORITIES && Parked(qs) && o in qs.waiters && qs.waiters[o] != []
      ensures var t := qs.waiters[o][0];
        && Readies(qs, Wake(o), t) && t in qs.place && qs.place[t] == Waiting(o)
        && Do(qs, Wake(o)).sleepers == qs.sleepers && Do(qs, Wake(o)).until == qs.until
    {
      WakesPlace(qs, Wake(o), qs.waiters[o][0]);
    }

    /** UnblockThread, of the first waiter of an object. */
    method UnblockThread(t: KThread, ghost o: Obj)
      requires Rep() && o in q.waiters && q.waiters[o] != [] && t == q.waiters[o][0] && Legal(q, Wake(o))
      modifies this`q, t`state, t`next, t`prev
      modifies q.place.Keys`next, q.place.Keys`prev, sentinel`next, sentinel`prev
      ensures Rep() && q == Do(old(q), Wake(o))
    {
      WakeFacts(q, o);
      ThreadIsNoSentinel(q, t);
      if t.state == TERMINATED { return; }
      hide Core, SleepChain, DeadlinesOk, Do, Legal, Readies;
      MakeReadyAwake(t, Wake(o), q.sleepers, q.until);
    }

    /** AddThread. */
    method AddThread(t: KThread)
      requires Rep() && t !in q.place && t !in sentinel
      modifies this`q, t`state, t`next, t`prev
      modifies q.place.Keys`next, q.place.Keys`prev, sentinel`next, sentinel`prev
      ensures Rep() && q == Do(old(q), Admit(t, old(t.priority)))
    {
      assert Legal(q, Admit(t, t.priority));
      assert Do(q, Admit(t, t.priority)).sleepers == q.sleepers && Do(q, Admit(t, t.priority)).until == q.until;
      hide Core, SleepChain, DeadlinesOk, Do, Legal;
      MakeReadyAwake(t, Admit(t, t.priority), q.sleepers, q.until);
    }

    /** The priority of the current thread, which is in no queue. */
    method SetPriority(level: nat)
      requires Rep() && CurrentRuns()
      modifies this`q, q.current`priority
      ensures Rep() && q == Do(old(q), Reprioritize(level))
    {
      RankFacts(q, level);
      hide Rep, Core, Parked, RingsOk, SentinelsOut, StatesOk, DeadlinesOk, SleepChain, Do, Legal, CurrentRuns,
        StateOf;
      RepIs();
      RankCurrent(level, q.place, q.pri);
      Commit(Do(q, Reprioritize(level)));
    }

    lemma RankFacts(qs: Queues<KThread>, level: nat)
      requires |qs.ready| == PRIORITIES && Parked(qs) && qs.place[qs.current] == Running
      ensures Parked(Do(qs, Reprioritize(level)))
      ensures Do(qs, Reprioritize(level)) == qs.(pri := qs.pri[qs.current := level])
    {
      MoveParked(qs, Reprioritize(level));
    }

    method RankCurrent(level: nat, ghost place: map<KThread, Place>, ghost pri: map<KThread, nat>)
      requires StatesOk(place, pri)
      modifies current`priority
      ensures StatesOk(place, pri[current := level])
    {
      current.priority := level;
    }
  }
}
