/** The blocking objects of the kernel and the calls on them. */
module KernelSync {
  import opened Wrappers
  import opened Threads
  import opened QueueSpec
  import opened QueueLaws
  import opened SchedulerSpec
  import opened SchedulerLaws
  import opened SchedulerRuns
  import opened SchedulerObject
  import opened WaitChains

  class KEvent {
    var signaled: bool
    const autoReset: bool
    var waiters: KThread?

    constructor (auto: bool, initial: bool)
      ensures signaled == initial && autoReset == auto && waiters == null
    {
      signaled, autoReset, waiters := initial, auto, null;
    }
  }

  class KSema {
    var count: int
    const maxCount: int
    var head: KThread?
    var tail: KThread?

    constructor (init: int, max: int)
      ensures count == init && maxCount == max && head == null && tail == null
    {
      count, maxCount, head, tail := init, max, null, null;
    }
  }

  class KMutant {
    var owner: KThread?
    var depth: nat
    var head: KThread?
    var tail: KThread?

    constructor (holder: KThread?)
      ensures owner == holder && depth == (if holder == null then 0 else 1) && head == null && tail == null
    {
      owner, head, tail := holder, null, null;
      depth := if holder == null then 0 else 1;
    }
  }

  class KProcess {
    var threadCount: nat
    var exited: bool
    var exitWaiters: KThread?

    constructor (threads: nat)
      ensures threadCount == threads && !exited && exitWaiters == null
    {
      threadCount, exited, exitWaiters := threads, false, null;
    }
  }

  ghost function OwnerOf(x: Mutant<KThread>): KThread? { if x.owner.Some? then x.owner.value else null }

  ghost function EventsOf(es: seq<KEvent>): (xs: seq<Event>)
    reads es
    ensures |xs| == |es| && forall i | 0 <= i < |es| :: xs[i] == Event(es[i].signaled, es[i].autoReset)
  {
    seq(|es|, i requires 0 <= i < |es| reads es => Event(es[i].signaled, es[i].autoReset))
  }

  ghost function SemasOf(ss: seq<KSema>): (xs: seq<Sema>)
    reads ss
    ensures |xs| == |ss| && forall i | 0 <= i < |ss| :: xs[i] == Sema(ss[i].count, ss[i].maxCount)
  {
    seq(|ss|, i requires 0 <= i < |ss| reads ss => Sema(ss[i].count, ss[i].maxCount))
  }

  ghost function MutantsOf(ms: seq<KMutant>): (xs: seq<Mutant<KThread>>)
    reads ms
    ensures |xs| == |ms| && forall i | 0 <= i < |ms| :: xs[i].depth == ms[i].depth && OwnerOf(xs[i]) == ms[i].owner
  {
    seq(|ms|, i requires 0 <= i < |ms| reads ms =>
      Mutant(if ms[i].owner == null then None else Some(ms[i].owner as KThread), ms[i].depth))
  }

  ghost function ProcessesOf(ps: seq<KProcess>): (xs: seq<Process>)
    reads ps
    ensures |xs| == |ps| && forall i | 0 <= i < |ps| :: xs[i] == Process(ps[i].threadCount, ps[i].exited)
  {
    seq(|ps|, i requires 0 <= i < |ps| reads ps => Process(ps[i].threadCount, ps[i].exited))
  }

  datatype Tables = Tables(events: seq<Event>, semas: seq<Sema>, mutants: seq<Mutant<KThread>>, procs: seq<Process>)

  ghost function TablesOf(s: State<KThread>): Tables { Tables(s.events, s.semas, s.mutants, s.procs) }

  /** The tables hold different objects. */
  ghost predicate Different(es: seq<KEvent>, ss: seq<KSema>, ms: seq<KMutant>, ps: seq<KProcess>) {
    && (forall i, j | 0 <= i < j < |es| :: es[i] != es[j])
    && (forall i, j | 0 <= i < j < |ss| :: ss[i] != ss[j])
    && (forall i, j | 0 <= i < j < |ms| :: ms[i] != ms[j])
    && (forall i, j | 0 <= i < j < |ps| :: ps[i] != ps[j])
  }

  /** Nobody waits, semaphores and mutants are consistent, and the main thread is the only one. */
  ghost predicate Idle(main: KThread, es: seq<KEvent>, ss: seq<KSema>, ms: seq<KMutant>, ps: seq<KProcess>)
    reads es, ss, ms, ps
  {
    && main.home < |ps| && (forall e | e in es :: e.waiters == null)
    && (forall x | x in ss :: x.head == null && x.tail == null && 0 <= x.count <= x.maxCount <= I32_MAX)
    && (forall x | x in ms :: x.head == null && x.tail == null)
    && (forall x | x in ms :: (x.owner == null && x.depth == 0) || (x.owner == main && x.depth == 1))
    && (forall i | 0 <= i < |ps| ::
          ps[i].exitWaiters == null && !ps[i].exited && ps[i].threadCount == if i == main.home then 1 else 0)
  }

  class Kernel {
    const sched: Scheduler
    const events: seq<KEvent>
    const semas: seq<KSema>
    const mutants: seq<KMutant>
    const procs: seq<KProcess>
    var ticks: nat
    ghost var st: State<KThread>
    ghost var heads: map<Obj, KThread?>

    /** The machine at boot: the main thread runs, nobody waits. */
    constructor (main: KThread, es: seq<KEvent>, ss: seq<KSema>, ms: seq<KMutant>, ps: seq<KProcess>)
      requires Different(es, ss, ms, ps) && Idle(main, es, ss, ms, ps)
      modifies main`state
      ensures Valid()
      ensures st == BootState(main, main.priority, main.home, EventsOf(es), SemasOf(ss), MutantsOf(ms),
                              ProcessesOf(ps), 0)
      ensures events == es && semas == ss && mutants == ms && procs == ps && ticks == 0
    {
      hide Inv, BootState, Scheduler.Rep, BootQueues, AllObjects, EventsOf, SemasOf, MutantsOf, ProcessesOf, Valid,
        Idle, Different;
      ghost var objects := AllObjects(|es|, |ss|, |ms|, |ps|);
      ghost var evs, sms, mts, prs := EventsOf(es), SemasOf(ss), MutantsOf(ms), ProcessesOf(ps);
      sched := new Scheduler(main, objects);
      events, semas, mutants, procs := es, ss, ms, ps;
      ticks := 0;
      heads := map o | o in objects :: null;
      st := BootState(main, main.priority, main.home, evs, sms, mts, prs, 0);
      new;
      BootQueuesAre(main, main.priority, main.home, evs, sms, mts, prs);
      Booted(main, evs, sms, mts, prs);
    }

    lemma Booted(main: KThread, evs: seq<Event>, sms: seq<Sema>, mts: seq<Mutant<KThread>>, prs: seq<Process>)
      requires Different(events, semas, mutants, procs) && Idle(main, events, semas, mutants, procs)
      requires evs == EventsOf(events) && sms == SemasOf(semas) && mts == MutantsOf(mutants)
      requires prs == ProcessesOf(procs)
      requires st == BootState(main, main.priority, main.home, evs, sms, mts, prs, 0)
      requires heads == map o | o in AllObjects(|events|, |semas|, |mutants|, |procs|) :: null
      requires sched.Rep() && sched.q == st.q && ticks == 0
      ensures Valid()
    {
      hide Inv, BootState, Scheduler.Rep, BootQueues, AllObjects, TablesRep;
      hide EventsOf, SemasOf, MutantsOf, ProcessesOf, Chains;
      BootIsConsistent(main, main.priority, main.home, evs, sms, mts, prs, 0);
      BootParts(main, main.priority, main.home, evs, sms, mts, prs);
      BootLists(main, main.priority);
      BootTables(evs, sms, mts, prs, AllObjects(|events|, |semas|, |mutants|, |procs|), main);
    }

    lemma BootLists(main: KThread, pri: nat)
      requires st.q == BootQueues(main, pri, AllObjects(|events|, |semas|, |mutants|, |procs|))
      requires heads == map o | o in AllObjects(|events|, |semas|, |mutants|, |procs|) :: null
      ensures Chains(heads, st.q.waiters, st.q.place.Keys)
      ensures forall o | o in AllObjects(|events|, |semas|, |mutants|, |procs|) ::
        o in st.q.waiters && st.q.waiters[o] == []
    {
      assert heads.Keys == st.q.waiters.Keys;
    }

    lemma BootTables(evs: seq<Event>, sms: seq<Sema>, mts: seq<Mutant<KThread>>, prs: seq<Process>, objects: set<Obj>,
                     main: KThread)
      requires objects == AllObjects(|events|, |semas|, |mutants|, |procs|) && heads == map o | o in objects :: null
      requires forall o | o in objects :: o in st.q.waiters && st.q.waiters[o] == []
      requires |evs| == |events| && forall i | 0 <= i < |events| ::
        events[i].waiters == null && evs[i] == Event(events[i].signaled, events[i].autoReset)
      requires |sms| == |semas| && forall i | 0 <= i < |semas| ::
        semas[i].head == null && semas[i].tail == null && sms[i] == Sema(semas[i].count, semas[i].maxCount)
      requires |mts| == |mutants| && forall i | 0 <= i < |mutants| ::
        mutants[i].head == null && mutants[i].tail == null && mutants[i].owner == OwnerOf(mts[i])
          && mts[i].depth == mutants[i].depth
      requires |prs| == |procs| && forall i | 0 <= i < |procs| ::
        procs[i].exitWaiters == null && prs[i] == Process(procs[i].threadCount, procs[i].exited)
      ensures TablesRep(Tables(evs, sms, mts, prs), heads, st.q.waiters, None)
    {
      assert forall i | 0 <= i < |events| :: EventObj(i) in objects;
      assert forall i | 0 <= i < |semas| :: SemaObj(i) in objects;
      assert forall i | 0 <= i < |mutants| :: MutantObj(i) in objects;
      assert forall i | 0 <= i < |procs| :: ProcessObj(i) in objects;
    }

    lemma BootQueuesAre(main: KThread, pri: nat, home: nat, evs: seq<Event>, sms: seq<Sema>, mts: seq<Mutant<KThread>>,
                        prs: seq<Process>)
      ensures BootState(main, pri, home, evs, sms, mts, prs, 0).q
        == BootQueues(main, pri, AllObjects(|evs|, |sms|, |mts|, |prs|))
    {}

    lemma BootParts(main: KThread, pri: nat, home: nat, evs: seq<Event>, sms: seq<Sema>, mts: seq<Mutant<KThread>>,
                    prs: seq<Process>)
      ensures var s := BootState(main, pri, home, evs, sms, mts, prs, 0);
        && s.events == evs && s.semas == sms && s.mutants == mts && s.procs == prs && s.now == 0 && s.main == main
        && s.home == map[main := home] && s.q == BootQueues(main, pri, AllObjects(|evs|, |sms|, |mts|, |prs|))
    {}

    /** The tables hold different objects. */
    ghost predicate TablesOk() { Different(events, semas, mutants, procs) }

    // Each table represents its objects; the link fields of object `but` may still be those of an
    // earlier list.

    ghost predicate EventsRep(xs: seq<Event>, hs: map<Obj, KThread?>, but: Option<Obj>)
      reads events
    {
      |xs| == |events| && forall i | 0 <= i < |events| ::
        && (but == Some(EventObj(i)) || (EventObj(i) in hs && events[i].waiters == hs[EventObj(i)]))
        && events[i].signaled == xs[i].signaled && events[i].autoReset == xs[i].autoReset
    }

    ghost predicate SemasRep(xs: seq<Sema>, hs: map<Obj, KThread?>, ws: map<Obj, seq<KThread>>, but: Option<Obj>)
      reads semas
    {
      |xs| == |semas| && forall i | 0 <= i < |semas| ::
        && (but == Some(SemaObj(i)) ||
            (SemaObj(i) in hs && SemaObj(i) in ws && semas[i].head == hs[SemaObj(i)]
             && semas[i].tail == Last(ws[SemaObj(i)])))
        && semas[i].count == xs[i].count && semas[i].maxCount == xs[i].max
    }

    ghost predicate MutantsRep(xs: seq<Mutant<KThread>>, hs: map<Obj, KThread?>, ws: map<Obj, seq<KThread>>,
                               but: Option<Obj>)
      reads mutants
    {
      |xs| == |mutants| && forall i | 0 <= i < |mutants| ::
        && (but == Some(MutantObj(i)) ||
            (MutantObj(i) in hs && MutantObj(i) in ws && mutants[i].head == hs[MutantObj(i)]
             && mutants[i].tail == Last(ws[MutantObj(i)])))
        && mutants[i].owner == OwnerOf(xs[i]) && mutants[i].depth == xs[i].depth
    }

    ghost predicate ProcessesRep(xs: seq<Process>, hs: map<Obj, KThread?>, but: Option<Obj>)
      reads procs
    {
      |xs| == |procs| && forall i | 0 <= i < |procs| ::
        && (but == Some(ProcessObj(i)) || (ProcessObj(i) in hs && procs[i].exitWaiters == hs[ProcessObj(i)]))
        && procs[i].threadCount == xs[i].threads && procs[i].exited == xs[i].exited
    }

    /** The tables represent the objects `x`. */
    ghost predicate TablesRep(x: Tables, hs: map<Obj, KThread?>, ws: map<Obj, seq<KThread>>, but: Option<Obj>)
      reads events, semas, mutants, procs
    {
      && EventsRep(x.events, hs, but) && SemasRep(x.semas, hs, ws, but)
      && MutantsRep(x.mutants, hs, ws, but) && ProcessesRep(x.procs, hs, but)
    }

    ghost predicate HomesOk(s: State<KThread>) { forall t | t in s.home :: t.home == s.home[t] }

    /** The objects and the linked structures represent the state of the machine. */
    ghost predicate Sound()
      reads *
    {
      && TablesOk() && HomesOk(st)
      && sched.Rep() && sched.q == st.q && ticks == st.now
      && Chains(heads, st.q.waiters, st.q.place.Keys)
      && TablesRep(TablesOf(st), heads, st.q.waiters, None)
    }

    /** And that state is consistent. */
    ghost predicate Valid()
      reads *
    {
      Sound() && Inv(st)
    }

    // ---- The wait lists --------------------------------------------------------------------

    lemma ListsAreApart(q: Queues<KThread>)
      requires Lists(q)
      ensures ListsApart(q.waiters)
      ensures forall o, t | o in q.waiters && t in q.waiters[o] :: t in q.place && q.place[t] == Waiting(o)
    {
      forall o | o in q.waiters
        ensures NoDup(q.waiters[o]) && forall t | t in q.waiters[o] :: t in q.place && q.place[t] == Waiting(o)
      {
        assert HasList(q, Waiting(o)) && ListAt(q, Waiting(o)) == q.waiters[o];
      }
    }

    lemma WakeKeeps(q: Queues<KThread>, o: Obj)
      requires |q.ready| == PRIORITIES && Parked(q) && Legal(q, Wake(o)) && o in q.waiters && q.waiters[o] != []
      ensures var r := Do(q, Wake(o));
        && r.waiters == q.waiters[o := q.waiters[o][1..]] && r.place.Keys == q.place.Keys && |r.ready| == PRIORITIES
        && r.current == q.current && r.current in r.place && r.place[r.current] == q.place[q.current]
      ensures q.waiters[o][0] in q.place
    {
      assert Readies(q, Wake(o), q.waiters[o][0]);
      ArriveFacts(q, Wake(o), q.waiters[o][0]);
      hide Lists;
    }

    /** UnlinkHead does not touch what the scheduler represents. */
    method UnlinkWaiter(ghost o: Obj, t: KThread) returns (next: KThread?)
      requires sched.Rep() && Chains(heads, sched.q.waiters, sched.q.place.Keys) && ListsApart(sched.q.waiters)
      requires o in sched.q.waiters && sched.q.waiters[o] != [] && heads[o] == t
      modifies this`heads, t`waitNext
      ensures sched.Rep() && t == sched.q.waiters[o][0]
      ensures heads == old(heads)[o := next]
      ensures Chains(heads, sched.q.waiters[o := sched.q.waiters[o][1..]], sched.q.place.Keys)
      ensures next == HeadOf(sched.q.waiters[o][1..])
    {
      hide Parked, Scheduler.RingsOk, Scheduler.StatesOk, Scheduler.SentinelsOut, Scheduler.DeadlinesOk, SleepChain,
        Chains, ListsApart;
      next := UnlinkHead(t, o, heads, sched.q.waiters, sched.q.place.Keys);
      heads := heads[o := next];
    }

    lemma WaiterFacts(q: Queues<KThread>, o: Obj)
      requires |q.ready| == PRIORITIES && Parked(q) && Legal(q, Wake(o)) && o in q.waiters && q.waiters[o] != []
      ensures ListsApart(q.waiters) && |Do(q, Wake(o)).ready| == PRIORITIES
      ensures Do(q, Wake(o)).waiters == q.waiters[o := q.waiters[o][1..]]
      ensures Do(q, Wake(o)).place.Keys == q.place.Keys && q.waiters[o][0] in q.place
    {
      hide Lists, Legal, Do, ListsApart;
      ListsAreApart(q);
      WakeKeeps(q, o);
    }

    lemma HeadIsFirst(hs: map<Obj, KThread?>, ws: map<Obj, seq<KThread>>, threads: set<KThread>, o: Obj)
      requires Chains(hs, ws, threads) && o in ws
      ensures o in hs && hs[o] == (if ws[o] == [] then null else ws[o][0])
      ensures forall t | t in ws[o] :: t in threads
    {}

    /** UnblockThread does not touch the wait lists. */
    method UnblockWaiter(t: KThread, ghost o: Obj, ghost hs: map<Obj, KThread?>, ghost ws: map<Obj, seq<KThread>>,
                         ghost threads: set<KThread>)
      requires sched.Rep() && o in sched.q.waiters && sched.q.waiters[o] != [] && t == sched.q.waiters[o][0]
      requires t in sched.q.place
      requires Legal(sched.q, Wake(o)) && Chains(hs, ws, threads)
      modifies sched`q, sched.q.place.Keys`state, sched.q.place.Keys`next, sched.q.place.Keys`prev
      modifies sched.sentinel`next, sched.sentinel`prev
      ensures sched.Rep() && sched.q == Do(old(sched.q), Wake(o)) && Chains(hs, ws, threads)
    {
      hide Scheduler.Rep, Chains, Legal, Do;
      sched.UnblockThread(t, o);
    }

    /** Takes the first waiter off an object's list and makes it ready. */
    method WakeWaiter(ghost o: Obj, t: KThread) returns (next: KThread?)
      requires sched.Rep() && Chains(heads, sched.q.waiters, sched.q.place.Keys)
      requires o in sched.q.waiters && sched.q.waiters[o] != [] && heads[o] == t && Legal(sched.q, Wake(o))
      modifies this`heads, sched`q, sched.q.place.Keys`waitNext, sched.q.place.Keys`state
      modifies sched.q.place.Keys`next, sched.q.place.Keys`prev, sched.sentinel`next, sched.sentinel`prev
      ensures sched.Rep() && sched.q == Do(old(sched.q), Wake(o))
      ensures heads == old(heads)[o := next] && Chains(heads, sched.q.waiters, sched.q.place.Keys)
    {
      hide Scheduler.Rep, Chains, Parked, Legal, ListsApart, Do;
      sched.RepIs();
      WaiterFacts(sched.q, o);
      HeadIsFirst(heads, sched.q.waiters, sched.q.place.Keys, o);
      next := UnlinkWaiter(o, t);
      UnblockWaiter(t, o, heads, sched.q.waiters[o := sched.q.waiters[o][1..]], sched.q.place.Keys);
    }

    // ---- Blocking ----------------------------------------------------------------------------

    lemma BlockFacts(q: Queues<KThread>, o: Obj, front: bool)
      requires |q.ready| == PRIORITIES && Placed(q) && o in q.waiters
      ensures var r := Do(q, Wait(o, front));
        && r.waiters == q.waiters[o := if front then [q.current] + q.waiters[o] else q.waiters[o] + [q.current]]
        && r.place.Keys == q.place.Keys && |r.ready| == PRIORITIES
      ensures q.current in q.place && q.place[q.current] == Running
    {
      hide Lists;
    }

    lemma CurrentInNoList(q: Queues<KThread>)
      requires Placed(q)
      ensures InNoList(q.current, q.waiters) && ListsApart(q.waiters)
      ensures forall o, t | o in q.waiters && t in q.waiters[o] :: t in q.place
    {
      hide ListsApart;
      ListsAreApart(q);
      hide Lists;
    }

    /** The current thread goes to the front of an object's list. */
    method LinkCurrentFront(ghost o: Obj, head: KThread?)
      requires sched.Rep() && Chains(heads, sched.q.waiters, sched.q.place.Keys)
      requires InNoList(sched.q.current, sched.q.waiters)
      requires o in sched.q.waiters && o in heads && heads[o] == head && sched.q.current in sched.q.place
      modifies this`heads, sched.q.current`waitNext
      ensures sched.Rep() && heads == old(heads)[o := sched.q.current]
      ensures Chains(heads, sched.q.waiters[o := [sched.q.current] + sched.q.waiters[o]], sched.q.place.Keys)
    {
      hide Parked, Scheduler.RingsOk, Scheduler.StatesOk, Scheduler.SentinelsOut, Scheduler.DeadlinesOk, SleepChain,
        Chains, InNoList;
      LinkFront(sched.current, o, heads, sched.q.waiters, sched.q.place.Keys, head);
      heads := heads[o := sched.q.current];
    }

    /** The current thread goes to the back of an object's list. */
    method LinkCurrentBack(ghost o: Obj, tail: KThread?)
      requires sched.Rep() && Chains(heads, sched.q.waiters, sched.q.place.Keys)
      requires InNoList(sched.q.current, sched.q.waiters)
      requires ListsApart(sched.q.waiters)
      requires (o in sched.q.waiters ==> forall t | t in sched.q.waiters[o] :: t in sched.q.place)
      requires o in sched.q.waiters && o in heads && tail == Last(sched.q.waiters[o])
      requires sched.q.current in sched.q.place
      modifies this`heads, sched.q.place.Keys`waitNext
      ensures sched.Rep() && heads == old(heads)[o := if tail == null then sched.q.current else old(heads)[o]]
      ensures Chains(heads, sched.q.waiters[o := sched.q.waiters[o] + [sched.q.current]], sched.q.place.Keys)
    {
      hide Parked, Scheduler.RingsOk, Scheduler.StatesOk, Scheduler.SentinelsOut, Scheduler.DeadlinesOk, SleepChain,
        Chains, InNoList, ListsApart;
      LinkBack(sched.current, o, heads, sched.q.waiters, sched.q.place.Keys, tail);
      heads := heads[o := if tail == null then sched.q.current else heads[o]];
    }

    /** BlockCurrentThread does not touch the wait lists. */
    method BlockKeepingLists(ghost o: Obj, ghost front: bool, ghost hs: map<Obj, KThread?>,
                             ghost ws: map<Obj, seq<KThread>>, ghost threads: set<KThread>)
      requires sched.Rep() && sched.CurrentRuns() && o in sched.q.waiters && Chains(hs, ws, threads)
      modifies sched`q, sched.q.current`state
      ensures sched.Rep() && sched.q == Do(old(sched.q), Wait(o, front)) && Chains(hs, ws, threads)
    {
      hide Scheduler.Rep, Chains, Do;
      sched.BlockCurrentThread(o, front);
    }

    /** Schedule does not touch the wait lists. */
    method ScheduleKeepingLists(ghost hs: map<Obj, KThread?>, ghost ws: map<Obj, seq<KThread>>,
                                ghost threads: set<KThread>)
      requires sched.Rep() && Chains(hs, ws, threads)
      modifies sched`q, sched`current, sched`quantum
      modifies sched.q.place.Keys`state, sched.q.place.Keys`next, sched.q.place.Keys`prev, sched.sentinel`next,
        sched.sentinel`prev
      ensures sched.Rep() && sched.q == Dispatch(old(sched.q)) && Chains(hs, ws, threads)
    {
      hide Scheduler.Rep, Chains, Dispatch;
      sched.ScheduleInternal();
    }

    // ---- Between calls -------------------------------------------------------------------------

    lemma ValidIs()
      requires Valid()
      ensures Sound() && TablesOk() && Inv(st) && HomesOk(st) && sched.Rep() && sched.q == st.q && ticks == st.now
      ensures Chains(heads, st.q.waiters, st.q.place.Keys)
      ensures TablesRep(TablesOf(st), heads, st.q.waiters, None)
      ensures ThreadsOk(st) && KeysOk(st) && |st.q.ready| == PRIORITIES && Placed(st.q)
      ensures |events| == |st.events| && |semas| == |st.semas| && |mutants| == |st.mutants| && |procs| == |st.procs|
    {}

    lemma SoundIsValid()
      requires Sound() && Inv(st)
      ensures Valid()
    {}

    /** The objects now represent state `r`. */
    ghost method Settle(r: State<KThread>)
      requires TablesOk() && HomesOk(r) && sched.Rep() && sched.q == r.q && ticks == r.now
      requires Chains(heads, r.q.waiters, r.q.place.Keys)
      requires TablesRep(TablesOf(r), heads, r.q.waiters, None)
      modifies this`st
      ensures Sound() && st == r
    {
      hide TablesOk, HomesOk, Chains, TablesRep;
      hide Parked, Scheduler.RingsOk, Scheduler.StatesOk, Scheduler.SentinelsOut, Scheduler.DeadlinesOk, SleepChain;
      st := r;
    }

    /** A new head and a new list for one object concern the link fields of that object only. */
    lemma OtherTables(x: Tables, hs: map<Obj, KThread?>, ws: map<Obj, seq<KThread>>, o: Obj, head: KThread?,
                      w: seq<KThread>)
      requires TablesRep(x, hs, ws, None)
      ensures TablesRep(x, hs[o := head], ws[o := w], Some(o))
    {}

    lemma OthersWhole(x: Tables, hs: map<Obj, KThread?>, ws: map<Obj, seq<KThread>>, o: Obj)
      requires TablesRep(x, hs, ws, Some(o))
      ensures !o.EventObj? ==> EventsRep(x.events, hs, None)
      ensures !o.SemaObj? ==> SemasRep(x.semas, hs, ws, None)
      ensures !o.MutantObj? ==> MutantsRep(x.mutants, hs, ws, None)
      ensures !o.ProcessObj? ==> ProcessesRep(x.procs, hs, None)
    {}

    /** A step keeps the processes of the threads that exist. */
    lemma HomesStay(s: State<KThread>, op: Op<KThread>)
      requires HomesOk(s) && |s.q.ready| == PRIORITIES && !op.Spawn?
      ensures HomesOk(Step(s, op)) && Step(s, op).home == s.home && Step(s, op).main == s.main
    {
      ObjectsFrame(s, op);
      hide DoAll, Moves, EffectOf, Objects;
    }

    // ---- Events --------------------------------------------------------------------------------

    lemma SetEventFacts(s: State<KThread>, i: nat)
      requires ThreadsOk(s) && KeysOk(s)
      ensures Allowed(s, SetEvent(i)) && Result(s, SetEvent(i)) == (if i < |s.events| then Success else InvalidHandle)
      ensures i >= |s.events| ==> Step(s, SetEvent(i)) == s
      ensures i < |s.events| ==> EventObj(i) in s.q.waiters && Legal(s.q, Wake(EventObj(i)))
      ensures i < |s.events| && s.q.waiters[EventObj(i)] == [] ==>
        Step(s, SetEvent(i)) == s.(events := s.events[i := s.events[i].(signaled := true)])
      ensures i < |s.events| && s.q.waiters[EventObj(i)] != [] ==>
        Step(s, SetEvent(i)) == s.(q := Do(s.q, Wake(EventObj(i))),
          events := s.events[i := s.events[i].(signaled := s.events[i].signaled || !s.events[i].autoReset)])
    {
      SetEventIsAllowed(s, i);
      hide Lists, Up;
      assert i < |s.events| ==> Exists(s, EventObj(i));
      OneMove(s.q, Wake(EventObj(i)));
      assert WakeMoves<KThread>(EventObj(i), 1) == [Wake(EventObj(i))];
    }

    /** The first waiter of an object leaves its list; the object is not yet updated. */
    method UnlinkFirst(ghost o: Obj, t: KThread, ghost w: seq<KThread>) returns (next: KThread?)
      requires Valid() && o in st.q.waiters && st.q.waiters[o] != [] && o in heads && heads[o] == t
      requires w == st.q.waiters[o][1..]
      modifies this`heads, st.q.place.Keys`waitNext
      ensures sched.Rep() && t == st.q.waiters[o][0] && t in st.q.place && next == HeadOf(w)
      ensures heads == old(heads)[o := next] && Chains(heads, st.q.waiters[o := w], st.q.place.Keys)
      ensures TablesRep(TablesOf(st), heads, st.q.waiters[o := w], Some(o))
    {
      hide Valid, Sound, Inv, Chains, TablesRep, HomesOk, Scheduler.Rep, ListsApart, ThreadsOk, KeysOk, Placed;
      ValidIs();
      CurrentInNoList(st.q);
      HeadIsFirst(heads, st.q.waiters, st.q.place.Keys, o);
      OtherTables(TablesOf(st), heads, st.q.waiters, o, HeadOf(w), w);
      next := UnlinkWaiter(o, t);
    }

    /** The event after its first waiter has left. */
    method StoreEvent(i: nat, next: KThread?, ghost x: Tables, ghost hs: map<Obj, KThread?>,
                      ghost ws: map<Obj, seq<KThread>>)
      requires TablesOk() && i < |events| == |x.events| && sched.Rep()
      requires TablesRep(x, hs, ws, Some(EventObj(i))) && EventObj(i) in hs && hs[EventObj(i)] == next
      modifies events`waiters, events`signaled
      ensures var e := x.events[i];
        TablesRep(x.(events := x.events[i := e.(signaled := e.signaled || !e.autoReset)]), hs, ws, None)
      ensures sched.Rep()
    {
      hide Parked, Scheduler.RingsOk, Scheduler.StatesOk, Scheduler.SentinelsOut, Scheduler.DeadlinesOk, SleepChain;
      hide SemasRep, MutantsRep, ProcessesRep;
      OthersWhole(x, hs, ws, EventObj(i));
      var ev := events[i];
      ev.waiters := next;
      if !ev.autoReset { ev.signaled := true; }
    }

    lemma EventHead(x: Tables, hs: map<Obj, KThread?>, ws: map<Obj, seq<KThread>>, i: nat)
      requires TablesRep(x, hs, ws, None) && i < |events|
      ensures EventObj(i) in hs && events[i].waiters == hs[EventObj(i)]
    {}

    /** A call that is allowed leads to a consistent state. */
    lemma Prepare(op: Op<KThread>)
      requires Valid() && |st.q.ready| == PRIORITIES && !op.Spawn?
      ensures HomesOk(Step(st, op)) && Step(st, op).now == st.now + if op.Tick? then 1 else 0
      ensures Allowed(st, op) ==> Inv(Step(st, op))
    {
      hide Inv, Step, HomesOk, Allowed, Chains, TablesRep, Scheduler.Rep, TablesOk;
      if Allowed(st, op) { StepKeepsInvariant(st, op); }
      HomesStay(st, op);
      StepNow(st, op);
    }

    /** The waiter that has left its list is unblocked, and the call is done. */
    method WakeAndSettle(ghost o: Obj, t: KThread, ghost ws: map<Obj, seq<KThread>>, ghost after: State<KThread>)
      requires sched.Rep() && o in sched.q.waiters && sched.q.waiters[o] != [] && t == sched.q.waiters[o][0]
      requires t in sched.q.place
      requires Legal(sched.q, Wake(o)) && Chains(heads, ws, sched.q.place.Keys)
      requires |sched.q.ready| == PRIORITIES && after.q == Do(sched.q, Wake(o))
      requires TablesOk() && HomesOk(after) && ticks == after.now
      requires TablesRep(TablesOf(after), heads, ws, None) && after.q.waiters == ws
      requires after.q.place.Keys == sched.q.place.Keys
      modifies this`st, sched`q, sched.q.place.Keys`state, sched.q.place.Keys`next, sched.q.place.Keys`prev
      modifies sched.sentinel`next, sched.sentinel`prev
      ensures Sound() && st == after
    {
      hide Valid, Sound, Inv, Chains, TablesRep, HomesOk, Scheduler.Rep, TablesOk, Legal, Do, TablesOf;
      UnblockWaiter(t, o, heads, ws, sched.q.place.Keys);
      Settle(after);
    }

    method GrantEvent(i: nat, t: KThread, ghost w: seq<KThread>, ghost after: State<KThread>)
      requires Valid() && i < |events| && HomesOk(after)
      requires EventObj(i) in st.q.waiters && st.q.waiters[EventObj(i)] != [] && EventObj(i) in heads
      requires heads[EventObj(i)] == t
      requires w == st.q.waiters[EventObj(i)][1..] && |st.q.ready| == PRIORITIES && |events| == |st.events|
      requires Legal(st.q, Wake(EventObj(i)))
      requires after == st.(q := Do(st.q, Wake(EventObj(i))),
        events := st.events[i := st.events[i].(signaled := st.events[i].signaled || !st.events[i].autoReset)])
      requires after.q.waiters == st.q.waiters[EventObj(i) := w] && after.q.place.Keys == st.q.place.Keys
      modifies this`st, this`heads, events`waiters, events`signaled, sched`q
      modifies st.q.place.Keys`waitNext, st.q.place.Keys`state, st.q.place.Keys`next, st.q.place.Keys`prev
      modifies sched.sentinel`next, sched.sentinel`prev
      ensures Sound() && st == after
    {
      hide Valid, Sound, Inv, Chains, TablesRep, HomesOk, Scheduler.Rep, ThreadsOk, KeysOk, TablesOk, Legal, Do,
        Placed, Parked;
      ValidIs();
      var next := UnlinkFirst(EventObj(i), t, w);
      StoreEvent(i, next, TablesOf(st), heads, st.q.waiters[EventObj(i) := w]);
      WakeAndSettle(EventObj(i), t, st.q.waiters[EventObj(i) := w], after);
    }

    method StoreSignal(i: nat, signal: bool, ghost x: Tables, ghost hs: map<Obj, KThread?>,
                       ghost ws: map<Obj, seq<KThread>>)
      requires TablesOk() && i < |events| == |x.events| && sched.Rep() && TablesRep(x, hs, ws, None)
      modifies events`signaled
      ensures TablesRep(x.(events := x.events[i := x.events[i].(signaled := signal)]), hs, ws, None)
      ensures sched.Rep()
    {
      hide Parked, Scheduler.RingsOk, Scheduler.StatesOk, Scheduler.SentinelsOut, Scheduler.DeadlinesOk, SleepChain;
      hide SemasRep, MutantsRep, ProcessesRep;
      events[i].signaled := signal;
    }

    method SetSignal(i: nat, signal: bool, ghost after: State<KThread>)
      requires Valid() && i < |events| == |st.events| && HomesOk(after)
      requires after == st.(events := st.events[i := st.events[i].(signaled := signal)])
      modifies this`st, events`signaled
      ensures Sound() && st == after
    {
      hide Valid, Sound, Inv, Chains, TablesRep, HomesOk, Scheduler.Rep, ThreadsOk, KeysOk, TablesOk, Placed;
      ValidIs();
      StoreSignal(i, signal, TablesOf(st), heads, st.q.waiters);
      Settle(after);
    }

    /** EventSet. */
    method EventSet(i: nat) returns (r: Status)
      requires Valid()
      modifies this`st, this`heads, events`waiters, events`signaled, sched`q
      modifies st.q.place.Keys`waitNext, st.q.place.Keys`state, st.q.place.Keys`next, st.q.place.Keys`prev
      modifies sched.sentinel`next, sched.sentinel`prev
      ensures Valid() && st == Step(old(st), SetEvent(i)) && r == Result(old(st), SetEvent(i))
    {
      hide Valid, Sound, Inv, Chains, TablesRep, HomesOk, Scheduler.Rep, ThreadsOk, KeysOk, TablesOk, Legal, Do,
        Placed, Parked, Step, Result;
      ValidIs();
      SetEventFacts(st, i);
      Prepare(SetEvent(i));
      ghost var after := Step(st, SetEvent(i));
      if i >= |events| { return InvalidHandle; }
      r := Success;
      EventHead(TablesOf(st), heads, st.q.waiters, i);
      HeadIsFirst(heads, st.q.waiters, st.q.place.Keys, EventObj(i));
      var t := events[i].waiters;
      if t != null {
        WakeKeeps(st.q, EventObj(i));
        GrantEvent(i, t, st.q.waiters[EventObj(i)][1..], after);
      } else {
        SetSignal(i, true, after);
      }
      SoundIsValid();
    }

    lemma ResetEventFacts(s: State<KThread>, i: nat)
      requires |s.q.ready| == PRIORITIES
      ensures Allowed(s, ResetEvent(i))
      ensures Result(s, ResetEvent(i)) == (if i < |s.events| then Success else InvalidHandle)
      ensures Step(s, ResetEvent(i)) ==
        if i < |s.events| then s.(events := s.events[i := s.events[i].(signaled := false)]) else s
    {}

    /** EventReset. */
    method EventReset(i: nat) returns (r: Status)
      requires Valid()
      modifies this`st, events`signaled
      ensures Valid() && st == Step(old(st), ResetEvent(i)) && r == Result(old(st), ResetEvent(i))
    {
      hide Valid, Sound, Inv, Chains, TablesRep, HomesOk, Scheduler.Rep, ThreadsOk, KeysOk, TablesOk, Placed, Step,
        Result;
      ValidIs();
      ResetEventFacts(st, i);
      Prepare(ResetEvent(i));
      if i >= |events| { return InvalidHandle; }
      SetSignal(i, false, Step(st, ResetEvent(i)));
      SoundIsValid();
      r := Success;
    }

    // ---- Blocking on an object -----------------------------------------------------------------

    lemma BlockEffect(q: Queues<KThread>, o: Obj, front: bool)
      requires |q.ready| == PRIORITIES && Placed(q) && o in q.waiters
      ensures var r := DoAll(q, [Wait(o, front), Switch]);
        && r == Dispatch(Do(q, Wait(o, front)))
        && r.waiters == q.waiters[o := if front then [q.current] + q.waiters[o] else q.waiters[o] + [q.current]]
        && r.place.Keys == q.place.Keys
      ensures Do(q, Wait(o, front)).place.Keys == q.place.Keys
    {
      ThenSwitch(q, Wait(o, front));
      BlockFacts(q, o, front);
      MoveParked(q, Wait(o, front));
      var r := Do(q, Wait(o, front));
      SwitchFrame(r);
      hide Lists, DoAll, Do;
      if Highest(r.ready) < PRIORITIES { SwitchFacts(r); }
    }

    /** BlockCurrentThread and Schedule, for a thread that is in the list of an object. */
    method BlockAndSchedule(ghost o: Obj, ghost front: bool, ghost hs: map<Obj, KThread?>,
                            ghost ws: map<Obj, seq<KThread>>, ghost threads: set<KThread>)
      requires sched.Rep() && |sched.q.ready| == PRIORITIES && Placed(sched.q) && sched.CurrentRuns()
      requires o in sched.q.waiters && Chains(hs, ws, threads)
      modifies sched`q, sched`current, sched`quantum
      modifies sched.q.place.Keys`state, sched.q.place.Keys`next, sched.q.place.Keys`prev, sched.sentinel`next,
        sched.sentinel`prev
      ensures sched.Rep() && sched.q == DoAll(old(sched.q), [Wait(o, front), Switch]) && Chains(hs, ws, threads)
    {
      hide Scheduler.Rep, Scheduler.CurrentRuns, Chains, Dispatch, DoAll, Do, Placed;
      BlockEffect(sched.q, o, front);
      CurrentIsPlaced(sched.q);
      BlockKeepingLists(o, front, hs, ws, threads);
      ScheduleKeepingLists(hs, ws, threads);
    }

    lemma CurrentIsPlaced(q: Queues<KThread>)
      requires Placed(q)
      ensures q.current in q.place && q.place[q.current] == Running
    {}

    /** The thread that has joined a list is blocked, and the call is done. */
    method BlockAndSettle(ghost o: Obj, ghost front: bool, ghost ws: map<Obj, seq<KThread>>,
                          ghost after: State<KThread>)
      requires sched.Rep() && |sched.q.ready| == PRIORITIES && Placed(sched.q) && o in sched.q.waiters
      requires Chains(heads, ws, sched.q.place.Keys)
      requires after.q == DoAll(sched.q, [Wait(o, front), Switch])
      requires TablesOk() && HomesOk(after) && ticks == after.now
      requires TablesRep(TablesOf(after), heads, ws, None) && after.q.waiters == ws
      requires after.q.place.Keys == sched.q.place.Keys
      modifies this`st, sched`q, sched`current, sched`quantum
      modifies sched.q.place.Keys`state, sched.q.place.Keys`next, sched.q.place.Keys`prev, sched.sentinel`next,
        sched.sentinel`prev
      ensures Sound() && st == after
    {
      hide Valid, Sound, Inv, Chains, TablesRep, HomesOk, Scheduler.Rep, TablesOk, DoAll, TablesOf, Placed;
      CurrentIsPlaced(sched.q);
      BlockAndSchedule(o, front, heads, ws, sched.q.place.Keys);
      Settle(after);
    }

    method StoreEventHead(i: nat, head: KThread?, ghost x: Tables, ghost hs: map<Obj, KThread?>,
                          ghost ws: map<Obj, seq<KThread>>)
      requires TablesOk() && i < |events| && sched.Rep()
      requires TablesRep(x, hs, ws, Some(EventObj(i))) && EventObj(i) in hs && hs[EventObj(i)] == head
      modifies events`waiters
      ensures TablesRep(x, hs, ws, None) && sched.Rep()
    {
      hide Parked, Scheduler.RingsOk, Scheduler.StatesOk, Scheduler.SentinelsOut, Scheduler.DeadlinesOk, SleepChain;
      hide SemasRep, MutantsRep, ProcessesRep;
      OthersWhole(x, hs, ws, EventObj(i));
      events[i].waiters := head;
    }

    /** The current thread goes to the front of an object's list; the object is not yet updated. */
    method JoinFront(ghost o: Obj, head: KThread?, ghost w: seq<KThread>)
      requires Valid() && o in st.q.waiters && o in heads && heads[o] == head && w == [st.q.current] + st.q.waiters[o]
      modifies this`heads, st.q.current`waitNext
      ensures sched.Rep() && heads == old(heads)[o := st.q.current]
      ensures Chains(heads, st.q.waiters[o := w], st.q.place.Keys)
      ensures TablesRep(TablesOf(st), heads, st.q.waiters[o := w], Some(o))
    {
      hide Valid, Sound, Inv, Chains, TablesRep, HomesOk, Scheduler.Rep, ListsApart, InNoList, ThreadsOk, KeysOk,
        Placed;
      ValidIs();
      CurrentInNoList(st.q);
      CurrentIsPlaced(st.q);
      OtherTables(TablesOf(st), heads, st.q.waiters, o, st.q.current, w);
      LinkCurrentFront(o, head);
    }

    method BlockOnEvent(i: nat, ghost w: seq<KThread>, ghost after: State<KThread>)
      requires Valid() && i < |events| && HomesOk(after) && |st.q.ready| == PRIORITIES
      requires EventObj(i) in st.q.waiters && EventObj(i) in heads && heads[EventObj(i)] == events[i].waiters
      requires w == [st.q.current] + st.q.waiters[EventObj(i)]
      requires after == st.(q := DoAll(st.q, [Wait(EventObj(i), true), Switch]))
      requires after.q.waiters == st.q.waiters[EventObj(i) := w] && after.q.place.Keys == st.q.place.Keys
      modifies this`st, this`heads, events`waiters, sched`q, sched`current, sched`quantum
      modifies st.q.place.Keys`waitNext, st.q.place.Keys`state, st.q.place.Keys`next, st.q.place.Keys`prev
      modifies sched.sentinel`next, sched.sentinel`prev
      ensures Sound() && st == after
    {
      hide Valid, Sound, Inv, Chains, TablesRep, HomesOk, Scheduler.Rep, ThreadsOk, KeysOk, TablesOk, DoAll, Placed,
        Parked;
      ValidIs();
      CurrentIsPlaced(st.q);
      var t := sched.current;
      assert t == st.q.current by { sched.RepIs(); }
      JoinFront(EventObj(i), events[i].waiters, w);
      StoreEventHead(i, t, TablesOf(st), heads, st.q.waiters[EventObj(i) := w]);
      BlockAndSettle(EventObj(i), true, st.q.waiters[EventObj(i) := w], after);
    }

    lemma WaitEventFacts(s: State<KThread>, i: nat, timeout: nat)
      requires ThreadsOk(s) && KeysOk(s)
      ensures i >= |s.events| ==>
        Step(s, WaitEvent(i, timeout)) == s && Result(s, WaitEvent(i, timeout)) == InvalidHandle
      ensures i < |s.events| && s.events[i].signaled ==> Result(s, WaitEvent(i, timeout)) == Success
      ensures i < |s.events| && s.events[i].signaled && !s.events[i].autoReset ==> Step(s, WaitEvent(i, timeout)) == s
      ensures i < |s.events| && s.events[i].signaled && s.events[i].autoReset ==>
        Step(s, WaitEvent(i, timeout)) == s.(events := s.events[i := s.events[i].(signaled := false)])
      ensures i < |s.events| && !s.events[i].signaled && timeout % U32 == 0 ==>
        Step(s, WaitEvent(i, timeout)) == s && Result(s, WaitEvent(i, timeout)) == Timeout
      ensures i < |s.events| && !s.events[i].signaled && timeout % U32 != 0 ==>
        EventObj(i) in s.q.waiters && Result(s, WaitEvent(i, timeout)) == Success
        && Step(s, WaitEvent(i, timeout)) == s.(q := DoAll(s.q, [Wait(EventObj(i), true), Switch]))
    {
      hide Placed, Up, DoAll;
      assert i < |s.events| ==> Exists(s, EventObj(i));
      NoMoves(s.q);
    }

    lemma NoMoves(q: Queues<KThread>)
      requires |q.ready| == PRIORITIES
      ensures DoAll(q, []) == q
    {}

    /** EventWait, for any thread; the state stays consistent if the call is allowed. */
    method EventWait(i: nat, timeout: nat) returns (r: Status)
      requires Valid()
      modifies this`st, this`heads, events`waiters, events`signaled, sched`q, sched`current, sched`quantum
      modifies st.q.place.Keys`waitNext, st.q.place.Keys`state, st.q.place.Keys`next, st.q.place.Keys`prev
      modifies sched.sentinel`next, sched.sentinel`prev
      ensures Sound() && st == Step(old(st), WaitEvent(i, timeout)) && r == Result(old(st), WaitEvent(i, timeout))
      ensures old(Allowed(st, WaitEvent(i, timeout))) ==> Valid()
    {
      hide Valid, Sound, Inv, Chains, TablesRep, HomesOk, Scheduler.Rep, ThreadsOk, KeysOk, TablesOk, DoAll, Placed,
        Parked, Step, Result;
      ValidIs();
      WaitEventFacts(st, i, timeout);
      Prepare(WaitEvent(i, timeout));
      ghost var after, allowed := Step(st, WaitEvent(i, timeout)), Allowed(st, WaitEvent(i, timeout));
      if i >= |events| { return InvalidHandle; }
      EventHead(TablesOf(st), heads, st.q.waiters, i);
      EventFlags(TablesOf(st), heads, st.q.waiters, i);
      r := Success;
      if events[i].signaled {
        if events[i].autoReset { SetSignal(i, false, after); }
      } else if timeout % U32 == 0 {
        r := Timeout;
      } else {
        BlockEffect(st.q, EventObj(i), true);
        BlockOnEvent(i, [st.q.current] + st.q.waiters[EventObj(i)], after);
      }
      if allowed { SoundIsValid(); }
    }

    lemma EventFlags(x: Tables, hs: map<Obj, KThread?>, ws: map<Obj, seq<KThread>>, i: nat)
      requires TablesRep(x, hs, ws, None) && i < |events|
      ensures |x.events| == |events| && events[i].signaled == x.events[i].signaled
      ensures events[i].autoReset == x.events[i].autoReset
    {}

    // ---- Semaphores ----------------------------------------------------------------------------

    lemma SemaFields(x: Tables, hs: map<Obj, KThread?>, ws: map<Obj, seq<KThread>>, i: nat)
      requires TablesRep(x, hs, ws, None) && i < |semas|
      ensures |x.semas| == |semas| && semas[i].count == x.semas[i].count && semas[i].maxCount == x.semas[i].max
      ensures SemaObj(i) in hs && SemaObj(i) in ws && semas[i].head == hs[SemaObj(i)]
      ensures semas[i].tail == Last(ws[SemaObj(i)])
    {}

    method StoreCount(i: nat, count: int, ghost x: Tables, ghost hs: map<Obj, KThread?>,
                      ghost ws: map<Obj, seq<KThread>>)
      requires TablesOk() && i < |semas| == |x.semas| && sched.Rep() && TablesRep(x, hs, ws, None)
      modifies semas`count
      ensures TablesRep(x.(semas := x.semas[i := x.semas[i].(count := count)]), hs, ws, None) && sched.Rep()
    {
      hide Parked, Scheduler.RingsOk, Scheduler.StatesOk, Scheduler.SentinelsOut, Scheduler.DeadlinesOk, SleepChain;
      hide EventsRep, MutantsRep, ProcessesRep;
      semas[i].count := count;
    }

    method SetCount(i: nat, count: int, ghost after: State<KThread>)
      requires Valid() && i < |semas| == |st.semas| && HomesOk(after)
      requires after == st.(semas := st.semas[i := st.semas[i].(count := count)])
      modifies this`st, semas`count
      ensures Sound() && st == after
    {
      hide Valid, Sound, Inv, Chains, TablesRep, HomesOk, Scheduler.Rep, ThreadsOk, KeysOk, TablesOk, Placed;
      ValidIs();
      StoreCount(i, count, TablesOf(st), heads, st.q.waiters);
      Settle(after);
    }

    /** The current thread goes to the back of an object's list; the object is not yet updated. */
    method JoinBack(ghost o: Obj, tail: KThread?, ghost w: seq<KThread>)
      requires Valid() && o in st.q.waiters && o in heads && tail == Last(st.q.waiters[o])
      requires w == st.q.waiters[o] + [st.q.current]
      modifies this`heads, st.q.place.Keys`waitNext
      ensures sched.Rep() && heads == old(heads)[o := if tail == null then st.q.current else old(heads)[o]]
      ensures Chains(heads, st.q.waiters[o := w], st.q.place.Keys)
      ensures TablesRep(TablesOf(st), heads, st.q.waiters[o := w], Some(o))
    {
      hide Valid, Sound, Inv, Chains, TablesRep, HomesOk, Scheduler.Rep, ListsApart, InNoList, ThreadsOk, KeysOk,
        Placed;
      ValidIs();
      CurrentInNoList(st.q);
      CurrentIsPlaced(st.q);
      OtherTables(TablesOf(st), heads, st.q.waiters, o, if tail == null then st.q.current else heads[o], w);
      LinkCurrentBack(o, tail);
    }

    /** `if (s.tail) s.tail->WaitNext = cur; else s.head = cur; s.tail = cur;` on the semaphore's own
        fields. */
    method StoreSemaTail(i: nat, cur: KThread, ghost x: Tables, ghost hs: map<Obj, KThread?>,
                         ghost ws: map<Obj, seq<KThread>>)
      requires TablesOk() && i < |semas| && sched.Rep() && TablesRep(x, hs, ws, Some(SemaObj(i)))
      requires SemaObj(i) in hs && SemaObj(i) in ws && Last(ws[SemaObj(i)]) == cur
      requires hs[SemaObj(i)] == if semas[i].tail == null then cur else semas[i].head
      modifies semas`head, semas`tail
      ensures TablesRep(x, hs, ws, None) && sched.Rep()
    {
      hide Parked, Scheduler.RingsOk, Scheduler.StatesOk, Scheduler.SentinelsOut, Scheduler.DeadlinesOk, SleepChain;
      hide EventsRep, MutantsRep, ProcessesRep;
      OthersWhole(x, hs, ws, SemaObj(i));
      if semas[i].tail == null { semas[i].head := cur; }
      semas[i].tail := cur;
    }

    method BlockOnSema(i: nat, ghost w: seq<KThread>, ghost after: State<KThread>)
      requires Valid() && i < |semas| && HomesOk(after) && |st.q.ready| == PRIORITIES
      requires SemaObj(i) in st.q.waiters && SemaObj(i) in heads && heads[SemaObj(i)] == semas[i].head
      requires semas[i].tail == Last(st.q.waiters[SemaObj(i)]) && w == st.q.waiters[SemaObj(i)] + [st.q.current]
      requires after == st.(q := DoAll(st.q, [Wait(SemaObj(i), false), Switch]))
      requires after.q.waiters == st.q.waiters[SemaObj(i) := w] && after.q.place.Keys == st.q.place.Keys
      modifies this`st, this`heads, semas`head, semas`tail, sched`q, sched`current, sched`quantum
      modifies st.q.place.Keys`waitNext, st.q.place.Keys`state, st.q.place.Keys`next, st.q.place.Keys`prev
      modifies sched.sentinel`next, sched.sentinel`prev
      ensures Sound() && st == after
    {
      hide Valid, Sound, Inv, Chains, TablesRep, HomesOk, Scheduler.Rep, ThreadsOk, KeysOk, TablesOk, DoAll, Placed,
        Parked;
      ValidIs();
      CurrentIsPlaced(st.q);
      var t := sched.current;
      assert t == st.q.current by { sched.RepIs(); }
      JoinBack(SemaObj(i), semas[i].tail, w);
      StoreSemaTail(i, t, TablesOf(st), heads, st.q.waiters[SemaObj(i) := w]);
      BlockAndSettle(SemaObj(i), false, st.q.waiters[SemaObj(i) := w], after);
    }

    lemma WaitSemaFacts(s: State<KThread>, i: nat, timeout: nat)
      requires ThreadsOk(s) && KeysOk(s)
      ensures i >= |s.semas| ==> Step(s, WaitSema(i, timeout)) == s && Result(s, WaitSema(i, timeout)) == InvalidHandle
      ensures i < |s.semas| && s.semas[i].count > 0 ==> Result(s, WaitSema(i, timeout)) == Success
      ensures i < |s.semas| && s.semas[i].count > 0 ==>
        Step(s, WaitSema(i, timeout)) == s.(semas := s.semas[i := s.semas[i].(count := s.semas[i].count - 1)])
      ensures i < |s.semas| && s.semas[i].count <= 0 && timeout == 0 ==>
        Step(s, WaitSema(i, timeout)) == s && Result(s, WaitSema(i, timeout)) == Timeout
      ensures i < |s.semas| && s.semas[i].count <= 0 && timeout != 0 ==>
        SemaObj(i) in s.q.waiters && Result(s, WaitSema(i, timeout)) == Success
        && Step(s, WaitSema(i, timeout)) == s.(q := DoAll(s.q, [Wait(SemaObj(i), false), Switch]))
    {
      hide Placed, Up, DoAll;
      assert i < |s.semas| ==> Exists(s, SemaObj(i));
      NoMoves(s.q);
    }

    /** NT_WAIT_SINGLE on a semaphore handle. */
    method SemaWait(i: nat, timeout: nat) returns (r: Status)
      requires Valid()
      modifies this`st, this`heads, semas`count, semas`head, semas`tail, sched`q, sched`current, sched`quantum
      modifies st.q.place.Keys`waitNext, st.q.place.Keys`state, st.q.place.Keys`next, st.q.place.Keys`prev
      modifies sched.sentinel`next, sched.sentinel`prev
      ensures Sound() && st == Step(old(st), WaitSema(i, timeout)) && r == Result(old(st), WaitSema(i, timeout))
      ensures old(Allowed(st, WaitSema(i, timeout))) ==> Valid()
    {
      hide Valid, Sound, Inv, Chains, TablesRep, HomesOk, Scheduler.Rep, ThreadsOk, KeysOk, TablesOk, DoAll, Placed,
        Parked, Step, Result;
      ValidIs();
      WaitSemaFacts(st, i, timeout);
      Prepare(WaitSema(i, timeout));
      ghost var after, allowed := Step(st, WaitSema(i, timeout)), Allowed(st, WaitSema(i, timeout));
      if i >= |semas| { return InvalidHandle; }
      SemaFields(TablesOf(st), heads, st.q.waiters, i);
      r := Success;
      if semas[i].count > 0 {
        SetCount(i, semas[i].count - 1, after);
      } else if timeout == 0 {
        r := Timeout;
      } else {
        BlockEffect(st.q, SemaObj(i), false);
        BlockOnSema(i, st.q.waiters[SemaObj(i)] + [st.q.current], after);
      }
      if allowed { SoundIsValid(); }
    }

    /** `s.head = t->WaitNext; if (!s.head) s.tail = nullptr;` */
    method StoreSemaHead(i: nat, next: KThread?, ghost x: Tables, ghost hs: map<Obj, KThread?>,
                         ghost ws: map<Obj, seq<KThread>>)
      requires TablesOk() && i < |semas| && sched.Rep() && TablesRep(x, hs, ws, Some(SemaObj(i)))
      requires SemaObj(i) in hs && SemaObj(i) in ws && hs[SemaObj(i)] == next == HeadOf(ws[SemaObj(i)])
      requires ws[SemaObj(i)] != [] ==> semas[i].tail == Last(ws[SemaObj(i)])
      modifies semas`head, semas`tail
      ensures TablesRep(x, hs, ws, None) && sched.Rep()
    {
      hide Parked, Scheduler.RingsOk, Scheduler.StatesOk, Scheduler.SentinelsOut, Scheduler.DeadlinesOk, SleepChain;
      hide EventsRep, MutantsRep, ProcessesRep;
      OthersWhole(x, hs, ws, SemaObj(i));
      semas[i].head := next;
      if next == null { semas[i].tail := null; }
    }

    method GrantSema(i: nat, t: KThread, ghost w: seq<KThread>, ghost after: State<KThread>)
      requires Valid() && i < |semas| && HomesOk(after)
      requires SemaObj(i) in st.q.waiters && st.q.waiters[SemaObj(i)] != [] && SemaObj(i) in heads
      requires heads[SemaObj(i)] == t
      requires semas[i].tail == Last(st.q.waiters[SemaObj(i)])
      requires w == st.q.waiters[SemaObj(i)][1..] && |st.q.ready| == PRIORITIES && Legal(st.q, Wake(SemaObj(i)))
      requires after == st.(q := Do(st.q, Wake(SemaObj(i))))
      requires after.q.waiters == st.q.waiters[SemaObj(i) := w] && after.q.place.Keys == st.q.place.Keys
      modifies this`st, this`heads, semas`head, semas`tail, sched`q
      modifies st.q.place.Keys`waitNext, st.q.place.Keys`state, st.q.place.Keys`next, st.q.place.Keys`prev
      modifies sched.sentinel`next, sched.sentinel`prev
      ensures Sound() && st == after
    {
      hide Valid, Sound, Inv, Chains, TablesRep, HomesOk, Scheduler.Rep, ThreadsOk, KeysOk, TablesOk, Legal, Do,
        Placed, Parked;
      ValidIs();
      var next := UnlinkFirst(SemaObj(i), t, w);
      StoreSemaHead(i, next, TablesOf(st), heads, st.q.waiters[SemaObj(i) := w]);
      WakeAndSettle(SemaObj(i), t, st.q.waiters[SemaObj(i) := w], after);
    }

    lemma ReleaseSemaFacts(s: State<KThread>, i: nat, units: int)
      requires ThreadsOk(s) && KeysOk(s)
      ensures i >= |s.semas| ==>
        Step(s, ReleaseSema(i, units)) == s && Result(s, ReleaseSema(i, units)) == InvalidHandle
      ensures i < |s.semas| ==>
        SemaObj(i) in s.q.waiters && Result(s, ReleaseSema(i, units)) == Success && Legal(s.q, Wake(SemaObj(i)))
    {
      hide Lists, Up;
      assert i < |s.semas| ==> Exists(s, SemaObj(i));
      NoMoves(s.q);
    }

    /** Releasing one unit to a waiter. */
    lemma ReleaseOne(s: State<KThread>, i: nat)
      requires ThreadsOk(s) && KeysOk(s) && SemasOk(s) && i < |s.semas|
      requires SemaObj(i) in s.q.waiters && s.q.waiters[SemaObj(i)] != []
      ensures Allowed(s, ReleaseSema(i, 1)) && Step(s, ReleaseSema(i, 1)) == s.(q := Do(s.q, Wake(SemaObj(i))))
    {
      hide Placed, Up, KeysOk;
      assert SemaOk(s.semas[i], WaitersOf(s.q, SemaObj(i)));
      OneMove(s.q, Wake(SemaObj(i)));
      assert WakeMoves<KThread>(SemaObj(i), 1) == [Wake(SemaObj(i))];
      hide Do, DoAll;
      assert s.semas[i := s.semas[i]] == s.semas;
    }

    /** Releasing several units when somebody waits is releasing one, and then the others. */
    lemma ReleaseMore(s: State<KThread>, i: nat, units: nat)
      requires |s.q.ready| == PRIORITIES && ThreadsOk(s) && KeysOk(s) && SemasOk(s) && i < |s.semas| && units > 1
      requires SemaObj(i) in s.q.waiters && s.q.waiters[SemaObj(i)] != []
      requires Do(s.q, Wake(SemaObj(i))).waiters == s.q.waiters[SemaObj(i) := s.q.waiters[SemaObj(i)][1..]]
      ensures Step(s, ReleaseSema(i, units)) == Step(Step(s, ReleaseSema(i, 1)), ReleaseSema(i, units - 1))
    {
      hide ThreadsOk, KeysOk, SemasOk, Do, DoAll, WakeMoves, Step;
      ReleaseOne(s, i);
      var n := Min(units, |s.q.waiters[SemaObj(i)]|);
      ReleaseIs(s, i, units, n);
      ReleaseIs(Step(s, ReleaseSema(i, 1)), i, units - 1, n - 1);
      WakeOneAndOthers(s.q, SemaObj(i), n);
    }

    lemma ReleaseIs(s: State<KThread>, i: nat, units: nat, n: nat)
      requires |s.q.ready| == PRIORITIES && i < |s.semas| && units > 0
      requires SemaObj(i) in s.q.waiters && n == Min(units, |s.q.waiters[SemaObj(i)]|)
      ensures Step(s, ReleaseSema(i, units)) ==
        s.(q := DoAll(s.q, WakeMoves(SemaObj(i), n)), semas := s.semas[i := SemaAfterRelease(s.semas[i], units, n)])
      ensures Allowed(s, ReleaseSema(i, units)) <==> s.semas[i].count + (units - n) <= I32_MAX
    {
      hide DoAll, WakeMoves;
    }

    lemma WakeOneAndOthers(q: Queues<KThread>, o: Obj, n: nat)
      requires |q.ready| == PRIORITIES && n > 0
      ensures DoAll(q, WakeMoves(o, n)) == DoAll(Do(q, Wake(o)), WakeMoves(o, n - 1))
    {
      var ms: seq<Move<KThread>> := WakeMoves(o, n);
      var rest := ms[1..];
      assert ms[0] == Wake(o) && rest == WakeMoves(o, n - 1);
    }

    /** With nobody waiting, a release only counts. */
    lemma ReleaseNone(s: State<KThread>, i: nat, units: nat)
      requires ThreadsOk(s) && i < |s.semas| && units > 0
      requires SemaObj(i) in s.q.waiters && s.q.waiters[SemaObj(i)] == []
      ensures Step(s, ReleaseSema(i, units)) ==
        s.(semas := s.semas[i := SemaAfterRelease(s.semas[i], units, 0)])
    {
      hide Placed, Up, DoAll;
      NoMoves(s.q);
    }

    lemma CountInRange(s: State<KThread>, i: nat)
      requires SemasOk(s) && i < |s.semas|
      ensures Wrap32(s.semas[i].count) == s.semas[i].count <= s.semas[i].max
    {
      assert SemaOk(s.semas[i], WaitersOf(s.q, SemaObj(i)));
    }

    lemma InvHasSemas(s: State<KThread>)
      requires Inv(s)
      ensures SemasOk(s)
    {}

    lemma SameCount(s: State<KThread>, i: nat)
      requires i < |s.semas|
      ensures s == s.(semas := s.semas[i := s.semas[i].(count := s.semas[i].count)])
    {
      assert s.semas[i := s.semas[i]] == s.semas;
    }

    /** NT_RELEASE_SEMAPHORE. */
    method SemaRelease(i: nat, units: int) returns (r: Status)
      requires Valid()
      modifies this`st, this`heads, semas`count, semas`head, semas`tail, sched`q
      modifies st.q.place.Keys`waitNext, st.q.place.Keys`state, st.q.place.Keys`next, st.q.place.Keys`prev
      modifies sched.sentinel`next, sched.sentinel`prev
      ensures Sound() && st == Step(old(st), ReleaseSema(i, units)) && r == Result(old(st), ReleaseSema(i, units))
      ensures old(Allowed(st, ReleaseSema(i, units))) ==> Valid()
    {
      hide Valid, Sound, Inv, Chains, TablesRep, HomesOk, Scheduler.Rep, ThreadsOk, KeysOk, SemasOk, TablesOk, Legal,
        Do, DoAll, Placed, Parked, Step, Result, Allowed;
      ValidIs();
      ReleaseSemaFacts(st, i, units);
      if i >= |semas| { return InvalidHandle; }
      r := Success;
      var rel := if units <= 0 then 1 else units;
      PositiveUnits(st, i, units, rel);
      Prepare(ReleaseSema(i, rel));
      ghost var goal, allowed := Step(st, ReleaseSema(i, rel)), Allowed(st, ReleaseSema(i, units));
      SemaFields(TablesOf(st), heads, st.q.waiters, i);
      while rel > 0 && semas[i].head != null
        invariant Valid() && rel >= 0 && |st.q.ready| == PRIORITIES && st.q.place.Keys == old(st.q.place.Keys)
        invariant goal == if rel > 0 then Step(st, ReleaseSema(i, rel)) else st
        decreases rel
      {
        ReleaseStep(i, rel);
        rel := rel - 1;
      }
      ReleaseRest(i, rel, goal);
      if allowed { SoundIsValid(); }
    }

    /** What no waiter took is added to the count, up to the maximum. */
    method ReleaseRest(i: nat, rel: int, ghost goal: State<KThread>)
      requires Valid() && i < |semas| && rel >= 0 && |st.q.ready| == PRIORITIES && (rel > 0 ==> semas[i].head == null)
      requires HomesOk(goal) && goal == if rel > 0 then Step(st, ReleaseSema(i, rel)) else st
      modifies this`st, semas`count
      ensures Sound() && st == goal
    {
      hide Valid, Sound, Inv, Chains, TablesRep, HomesOk, Scheduler.Rep, ThreadsOk, KeysOk, SemasOk, TablesOk, Placed,
        Step;
      ValidIs();
      SemaFields(TablesOf(st), heads, st.q.waiters, i);
      HeadIsFirst(heads, st.q.waiters, st.q.place.Keys, SemaObj(i));
      InvHasSemas(st);
      CountInRange(st, i);
      var sum := Wrap32(semas[i].count + rel);
      if rel > 0 { ReleaseNone(st, i, rel); } else { SameCount(st, i); }
      SetCount(i, if sum > semas[i].maxCount then semas[i].maxCount else sum, goal);
    }

    lemma PositiveUnits(s: State<KThread>, i: nat, units: int, rel: int)
      requires |s.q.ready| == PRIORITIES && rel == (if units <= 0 then 1 else units)
      ensures Step(s, ReleaseSema(i, units)) == Step(s, ReleaseSema(i, rel))
      ensures Allowed(s, ReleaseSema(i, units)) ==> Allowed(s, ReleaseSema(i, rel))
    {
      hide DoAll, Moves;
    }

    /** One turn of the loop of NT_RELEASE_SEMAPHORE: one unit goes to the first waiter. */
    method ReleaseStep(i: nat, ghost rel: int)
      requires Valid() && i < |semas| && semas[i].head != null && |st.q.ready| == PRIORITIES
      requires rel > 0
      modifies this`st, this`heads, semas`head, semas`tail, sched`q
      modifies st.q.place.Keys`waitNext, st.q.place.Keys`state, st.q.place.Keys`next, st.q.place.Keys`prev
      modifies sched.sentinel`next, sched.sentinel`prev
      ensures Valid() && |st.q.ready| == PRIORITIES && st.q.place.Keys == old(st.q.place.Keys)
      ensures st == Step(old(st), ReleaseSema(i, 1))
      ensures Step(old(st), ReleaseSema(i, rel)) == if rel > 1 then Step(st, ReleaseSema(i, rel - 1)) else st
    {
      hide Valid, Sound, Inv, Chains, TablesRep, HomesOk, Scheduler.Rep, ThreadsOk, KeysOk, SemasOk, TablesOk, Legal,
        Do, DoAll, Placed, Parked, Step, Allowed;
      ValidIs();
      InvHasSemas(st);
      ReleaseSemaFacts(st, i, 1);
      SemaFields(TablesOf(st), heads, st.q.waiters, i);
      HeadIsFirst(heads, st.q.waiters, st.q.place.Keys, SemaObj(i));
      WakeKeeps(st.q, SemaObj(i));
      ReleaseOne(st, i);
      if rel > 1 { ReleaseMore(st, i, rel); }
      Prepare(ReleaseSema(i, 1));
      GrantSema(i, semas[i].head, st.q.waiters[SemaObj(i)][1..], Step(st, ReleaseSema(i, 1)));
      SoundIsValid();
    }

    // ---- Mutants -------------------------------------------------------------------------------

    lemma MutantFields(x: Tables, hs: map<Obj, KThread?>, ws: map<Obj, seq<KThread>>, i: nat)
      requires TablesRep(x, hs, ws, None) && i < |mutants|
      ensures |x.mutants| == |mutants| && mutants[i].owner == OwnerOf(x.mutants[i])
      ensures mutants[i].depth == x.mutants[i].depth
      ensures MutantObj(i) in hs && MutantObj(i) in ws && mutants[i].head == hs[MutantObj(i)]
      ensures mutants[i].tail == Last(ws[MutantObj(i)])
    {}

    method StoreOwner(i: nat, owner: KThread?, depth: nat, ghost x: Tables, ghost m: Mutant<KThread>,
                      ghost hs: map<Obj, KThread?>, ghost ws: map<Obj, seq<KThread>>)
      requires TablesOk() && i < |mutants| == |x.mutants| && sched.Rep() && TablesRep(x, hs, ws, None)
      requires owner == OwnerOf(m) && depth == m.depth
      modifies mutants`owner, mutants`depth
      ensures TablesRep(x.(mutants := x.mutants[i := m]), hs, ws, None) && sched.Rep()
    {
      hide Parked, Scheduler.RingsOk, Scheduler.StatesOk, Scheduler.SentinelsOut, Scheduler.DeadlinesOk, SleepChain;
      hide EventsRep, SemasRep, ProcessesRep;
      mutants[i].owner := owner;
      mutants[i].depth := depth;
    }

    method SetOwner(i: nat, owner: KThread?, depth: nat, ghost m: Mutant<KThread>, ghost after: State<KThread>)
      requires Valid() && i < |mutants| == |st.mutants| && HomesOk(after)
      requires owner == OwnerOf(m) && depth == m.depth && after == st.(mutants := st.mutants[i := m])
      modifies this`st, mutants`owner, mutants`depth
      ensures Sound() && st == after
    {
      hide Valid, Sound, Inv, Chains, TablesRep, HomesOk, Scheduler.Rep, ThreadsOk, KeysOk, TablesOk, Placed;
      ValidIs();
      StoreOwner(i, owner, depth, TablesOf(st), m, heads, st.q.waiters);
      Settle(after);
    }

    method StoreMutantTail(i: nat, cur: KThread, ghost x: Tables, ghost hs: map<Obj, KThread?>,
                           ghost ws: map<Obj, seq<KThread>>)
      requires TablesOk() && i < |mutants| && sched.Rep() && TablesRep(x, hs, ws, Some(MutantObj(i)))
      requires MutantObj(i) in hs && MutantObj(i) in ws && Last(ws[MutantObj(i)]) == cur
      requires hs[MutantObj(i)] == if mutants[i].tail == null then cur else mutants[i].head
      modifies mutants`head, mutants`tail
      ensures TablesRep(x, hs, ws, None) && sched.Rep()
    {
      hide Parked, Scheduler.RingsOk, Scheduler.StatesOk, Scheduler.SentinelsOut, Scheduler.DeadlinesOk, SleepChain;
      hide EventsRep, SemasRep, ProcessesRep;
      OthersWhole(x, hs, ws, MutantObj(i));
      if mutants[i].tail == null { mutants[i].head := cur; }
      mutants[i].tail := cur;
    }

    method BlockOnMutant(i: nat, ghost w: seq<KThread>, ghost after: State<KThread>)
      requires Valid() && i < |mutants| && HomesOk(after) && |st.q.ready| == PRIORITIES
      requires MutantObj(i) in st.q.waiters && MutantObj(i) in heads && heads[MutantObj(i)] == mutants[i].head
      requires mutants[i].tail == Last(st.q.waiters[MutantObj(i)]) && w == st.q.waiters[MutantObj(i)] + [st.q.current]
      requires after == st.(q := DoAll(st.q, [Wait(MutantObj(i), false), Switch]))
      requires after.q.waiters == st.q.waiters[MutantObj(i) := w] && after.q.place.Keys == st.q.place.Keys
      modifies this`st, this`heads, mutants`head, mutants`tail, sched`q, sched`current, sched`quantum
      modifies st.q.place.Keys`waitNext, st.q.place.Keys`state, st.q.place.Keys`next, st.q.place.Keys`prev
      modifies sched.sentinel`next, sched.sentinel`prev
      ensures Sound() && st == after
    {
      hide Valid, Sound, Inv, Chains, TablesRep, HomesOk, Scheduler.Rep, ThreadsOk, KeysOk, TablesOk, DoAll, Placed,
        Parked;
      ValidIs();
      CurrentIsPlaced(st.q);
      var t := sched.current;
      assert t == st.q.current by { sched.RepIs(); }
      JoinBack(MutantObj(i), mutants[i].tail, w);
      StoreMutantTail(i, t, TablesOf(st), heads, st.q.waiters[MutantObj(i) := w]);
      BlockAndSettle(MutantObj(i), false, st.q.waiters[MutantObj(i) := w], after);
    }

    lemma WaitMutantFacts(s: State<KThread>, i: nat)
      requires ThreadsOk(s) && KeysOk(s)
      ensures i >= |s.mutants| ==> Step(s, WaitMutant(i)) == s && Result(s, WaitMutant(i)) == InvalidHandle
      ensures i < |s.mutants| ==> Result(s, WaitMutant(i)) == Success && MutantObj(i) in s.q.waiters
      ensures i < |s.mutants| && s.mutants[i].owner.None? ==>
        Step(s, WaitMutant(i)) == s.(mutants := s.mutants[i := Mutant(Some(s.q.current), 1)])
      ensures i < |s.mutants| && s.mutants[i].owner == Some(s.q.current) ==>
        Step(s, WaitMutant(i)) == s.(mutants := s.mutants[i := Mutant(s.mutants[i].owner,
                                                                      (s.mutants[i].depth + 1) % U32)])
      ensures i < |s.mutants| && s.mutants[i].owner.Some? && s.mutants[i].owner.value != s.q.current ==>
        Step(s, WaitMutant(i)) == s.(q := DoAll(s.q, [Wait(MutantObj(i), false), Switch]))
    {
      hide Placed, Up, DoAll;
      assert i < |s.mutants| ==> Exists(s, MutantObj(i));
      NoMoves(s.q);
    }

    /** NT_WAIT_SINGLE on a mutant handle; the timeout is ignored. */
    method MutantWait(i: nat) returns (r: Status)
      requires Valid()
      modifies this`st, this`heads, mutants`owner, mutants`depth, mutants`head, mutants`tail, sched`q, sched`current,
        sched`quantum
      modifies st.q.place.Keys`waitNext, st.q.place.Keys`state, st.q.place.Keys`next, st.q.place.Keys`prev
      modifies sched.sentinel`next, sched.sentinel`prev
      ensures Sound() && st == Step(old(st), WaitMutant(i)) && r == Result(old(st), WaitMutant(i))
      ensures old(Allowed(st, WaitMutant(i))) ==> Valid()
    {
      hide Valid, Sound, Inv, Chains, TablesRep, HomesOk, Scheduler.Rep, ThreadsOk, KeysOk, TablesOk, DoAll, Placed,
        Parked, Step, Result, Allowed;
      ValidIs();
      WaitMutantFacts(st, i);
      Prepare(WaitMutant(i));
      ghost var after, allowed := Step(st, WaitMutant(i)), Allowed(st, WaitMutant(i));
      if i >= |mutants| { return InvalidHandle; }
      MutantFields(TablesOf(st), heads, st.q.waiters, i);
      r := Success;
      var cur := sched.current;
      assert cur == st.q.current by { sched.RepIs(); }
      if mutants[i].owner == null {
        SetOwner(i, cur, 1, Mutant(Some(cur), 1), after);
      } else if mutants[i].owner == cur {
        SetOwner(i, cur, (mutants[i].depth + 1) % U32, Mutant(Some(cur), (mutants[i].depth + 1) % U32), after);
      } else {
        BlockEffect(st.q, MutantObj(i), false);
        BlockOnMutant(i, st.q.waiters[MutantObj(i)] + [st.q.current], after);
      }
      if allowed { SoundIsValid(); }
    }

    /** `m.head = t->WaitNext; if (!m.head) m.tail = nullptr;` */
    method StoreMutantHead(i: nat, next: KThread?, ghost x: Tables, ghost hs: map<Obj, KThread?>,
                           ghost ws: map<Obj, seq<KThread>>)
      requires TablesOk() && i < |mutants| && sched.Rep() && TablesRep(x, hs, ws, Some(MutantObj(i)))
      requires MutantObj(i) in hs && MutantObj(i) in ws && hs[MutantObj(i)] == next == HeadOf(ws[MutantObj(i)])
      requires ws[MutantObj(i)] != [] ==> mutants[i].tail == Last(ws[MutantObj(i)])
      modifies mutants`head, mutants`tail
      ensures TablesRep(x, hs, ws, None) && sched.Rep()
    {
      hide Parked, Scheduler.RingsOk, Scheduler.StatesOk, Scheduler.SentinelsOut, Scheduler.DeadlinesOk, SleepChain;
      hide EventsRep, SemasRep, ProcessesRep;
      OthersWhole(x, hs, ws, MutantObj(i));
      mutants[i].head := next;
      if next == null { mutants[i].tail := null; }
    }

    /** The mutant after its first waiter has left and become the owner. */
    method StoreHandOff(i: nat, t: KThread, next: KThread?, ghost x: Tables, ghost hs: map<Obj, KThread?>,
                        ghost ws: map<Obj, seq<KThread>>)
      requires TablesOk() && i < |mutants| == |x.mutants| && sched.Rep() && TablesRep(x, hs, ws, Some(MutantObj(i)))
      requires MutantObj(i) in hs && MutantObj(i) in ws && hs[MutantObj(i)] == next == HeadOf(ws[MutantObj(i)])
      requires ws[MutantObj(i)] != [] ==> mutants[i].tail == Last(ws[MutantObj(i)])
      modifies mutants`head, mutants`tail, mutants`owner, mutants`depth
      ensures TablesRep(x.(mutants := x.mutants[i := Mutant(Some(t), 1)]), hs, ws, None) && sched.Rep()
    {
      hide Scheduler.Rep, TablesRep, TablesOk;
      StoreMutantHead(i, next, x, hs, ws);
      StoreOwner(i, t, 1, x, Mutant(Some(t), 1), hs, ws);
    }

    method HandOff(i: nat, t: KThread, ghost w: seq<KThread>, ghost after: State<KThread>)
      requires Valid() && i < |mutants| && HomesOk(after) && |st.mutants| == |mutants|
      requires MutantObj(i) in st.q.waiters && st.q.waiters[MutantObj(i)] != [] && MutantObj(i) in heads
      requires heads[MutantObj(i)] == t
      requires mutants[i].tail == Last(st.q.waiters[MutantObj(i)])
      requires w == st.q.waiters[MutantObj(i)][1..] && |st.q.ready| == PRIORITIES && Legal(st.q, Wake(MutantObj(i)))
      requires after == st.(q := Do(st.q, Wake(MutantObj(i))), mutants := st.mutants[i := Mutant(Some(t), 1)])
      requires after.q.waiters == st.q.waiters[MutantObj(i) := w] && after.q.place.Keys == st.q.place.Keys
      modifies this`st, this`heads, mutants`head, mutants`tail, mutants`owner, mutants`depth, sched`q
      modifies st.q.place.Keys`waitNext, st.q.place.Keys`state, st.q.place.Keys`next, st.q.place.Keys`prev
      modifies sched.sentinel`next, sched.sentinel`prev
      ensures Sound() && st == after
    {
      hide Valid, Sound, Inv, Chains, TablesRep, HomesOk, Scheduler.Rep, ThreadsOk, KeysOk, TablesOk, Legal, Do,
        Placed, Parked;
      ValidIs();
      var next := UnlinkFirst(MutantObj(i), t, w);
      StoreHandOff(i, t, next, TablesOf(st), heads, st.q.waiters[MutantObj(i) := w]);
      WakeAndSettle(MutantObj(i), t, st.q.waiters[MutantObj(i) := w], after);
    }

    lemma ReleaseMutantFacts(s: State<KThread>, i: nat)
      requires ThreadsOk(s) && KeysOk(s) && MutantsOk(s)
      ensures Allowed(s, ReleaseMutant(i))
      ensures i >= |s.mutants| ==> Step(s, ReleaseMutant(i)) == s && Result(s, ReleaseMutant(i)) == InvalidHandle
      ensures i < |s.mutants| ==> MutantObj(i) in s.q.waiters && Legal(s.q, Wake(MutantObj(i)))
      ensures i < |s.mutants| && s.mutants[i].owner != Some(s.q.current) ==>
        Step(s, ReleaseMutant(i)) == s && Result(s, ReleaseMutant(i)) == NotOwned
      ensures i < |s.mutants| && s.mutants[i].owner == Some(s.q.current) ==>
        Result(s, ReleaseMutant(i)) == Success && 0 < s.mutants[i].depth < U32
      ensures i < |s.mutants| && s.mutants[i].owner == Some(s.q.current) && s.mutants[i].depth > 1 ==>
        Step(s, ReleaseMutant(i)) == s.(mutants := s.mutants[i := Mutant(s.mutants[i].owner, s.mutants[i].depth - 1)])
      ensures i < |s.mutants| && s.mutants[i] == Mutant(Some(s.q.current), 1) && s.q.waiters[MutantObj(i)] == [] ==>
        Step(s, ReleaseMutant(i)) == s.(mutants := s.mutants[i := Mutant(None, 0)])
      ensures i < |s.mutants| && s.mutants[i] == Mutant(Some(s.q.current), 1) && s.q.waiters[MutantObj(i)] != [] ==>
        Step(s, ReleaseMutant(i)) ==
          s.(q := Do(s.q, Wake(MutantObj(i))), mutants := s.mutants[i := Mutant(Some(s.q.waiters[MutantObj(i)][0]), 1)])
    {
      hide Lists, Up;
      assert i < |s.mutants| ==> Exists(s, MutantObj(i)) && MutantOk(s.mutants[i], WaitersOf(s.q, MutantObj(i)));
      NoMoves(s.q);
      OneMove(s.q, Wake(MutantObj(i)));
      assert WakeMoves<KThread>(MutantObj(i), 1) == [Wake(MutantObj(i))];
      hide DoAll, Do;
    }

    lemma InvHasMutants(s: State<KThread>)
      requires Inv(s)
      ensures MutantsOk(s)
    {}

    /** NT_RELEASE_MUTANT. */
    method MutantRelease(i: nat) returns (r: Status)
      requires Valid()
      modifies this`st, this`heads, mutants`owner, mutants`depth, mutants`head, mutants`tail, sched`q
      modifies st.q.place.Keys`waitNext, st.q.place.Keys`state, st.q.place.Keys`next, st.q.place.Keys`prev
      modifies sched.sentinel`next, sched.sentinel`prev
      ensures Valid() && st == Step(old(st), ReleaseMutant(i)) && r == Result(old(st), ReleaseMutant(i))
    {
      hide Valid, Sound, Inv, Chains, TablesRep, HomesOk, Scheduler.Rep, ThreadsOk, KeysOk, MutantsOk, TablesOk,
        DoAll, Do, Legal, Placed, Parked, Step, Result, Allowed;
      ValidIs();
      InvHasMutants(st);
      ReleaseMutantFacts(st, i);
      Prepare(ReleaseMutant(i));
      ghost var after := Step(st, ReleaseMutant(i));
      if i >= |mutants| { return InvalidHandle; }
      MutantFields(TablesOf(st), heads, st.q.waiters, i);
      HeadIsFirst(heads, st.q.waiters, st.q.place.Keys, MutantObj(i));
      var m, cur := mutants[i], sched.current;
      assert cur == st.q.current by { sched.RepIs(); }
      if m.owner != cur { return NotOwned; }
      r := Success;
      var depth := m.depth - 1;
      if depth != 0 {
        SetOwner(i, cur, depth, Mutant(Some(cur), depth), after);
      } else if m.head != null {
        WakeKeeps(st.q, MutantObj(i));
        HandOff(i, m.head, st.q.waiters[MutantObj(i)][1..], after);
      } else {
        SetOwner(i, null, 0, Mutant(None, 0), after);
      }
      SoundIsValid();
    }

    // ---- Processes -----------------------------------------------------------------------------

    lemma ProcessFields(x: Tables, hs: map<Obj, KThread?>, ws: map<Obj, seq<KThread>>, i: nat)
      requires TablesRep(x, hs, ws, None) && i < |procs|
      ensures |x.procs| == |procs| && procs[i].threadCount == x.procs[i].threads && procs[i].exited == x.procs[i].exited
      ensures ProcessObj(i) in hs && procs[i].exitWaiters == hs[ProcessObj(i)]
    {}

    method StoreProcessHead(i: nat, head: KThread?, ghost x: Tables, ghost hs: map<Obj, KThread?>,
                            ghost ws: map<Obj, seq<KThread>>)
      requires TablesOk() && i < |procs| && sched.Rep()
      requires TablesRep(x, hs, ws, Some(ProcessObj(i))) && ProcessObj(i) in hs && hs[ProcessObj(i)] == head
      modifies procs`exitWaiters
      ensures TablesRep(x, hs, ws, None) && sched.Rep()
    {
      hide Parked, Scheduler.RingsOk, Scheduler.StatesOk, Scheduler.SentinelsOut, Scheduler.DeadlinesOk, SleepChain;
      hide EventsRep, SemasRep, MutantsRep;
      OthersWhole(x, hs, ws, ProcessObj(i));
      procs[i].exitWaiters := head;
    }

    method BlockOnProcess(i: nat, ghost w: seq<KThread>, ghost after: State<KThread>)
      requires Valid() && i < |procs| && HomesOk(after) && |st.q.ready| == PRIORITIES
      requires ProcessObj(i) in st.q.waiters && ProcessObj(i) in heads && heads[ProcessObj(i)] == procs[i].exitWaiters
      requires w == [st.q.current] + st.q.waiters[ProcessObj(i)]
      requires after == st.(q := DoAll(st.q, [Wait(ProcessObj(i), true), Switch]))
      requires after.q.waiters == st.q.waiters[ProcessObj(i) := w] && after.q.place.Keys == st.q.place.Keys
      modifies this`st, this`heads, procs`exitWaiters, sched`q, sched`current, sched`quantum
      modifies st.q.place.Keys`waitNext, st.q.place.Keys`state, st.q.place.Keys`next, st.q.place.Keys`prev
      modifies sched.sentinel`next, sched.sentinel`prev
      ensures Sound() && st == after
    {
      hide Valid, Sound, Inv, Chains, TablesRep, HomesOk, Scheduler.Rep, ThreadsOk, KeysOk, TablesOk, DoAll, Placed,
        Parked;
      ValidIs();
      CurrentIsPlaced(st.q);
      var t := sched.current;
      assert t == st.q.current by { sched.RepIs(); }
      JoinFront(ProcessObj(i), procs[i].exitWaiters, w);
      StoreProcessHead(i, t, TablesOf(st), heads, st.q.waiters[ProcessObj(i) := w]);
      BlockAndSettle(ProcessObj(i), true, st.q.waiters[ProcessObj(i) := w], after);
    }

    lemma WaitProcessFacts(s: State<KThread>, i: nat, timeout: nat)
      requires ThreadsOk(s) && KeysOk(s)
      ensures i >= |s.procs| ==>
        Step(s, WaitProcess(i, timeout)) == s && Result(s, WaitProcess(i, timeout)) == InvalidHandle
      ensures i < |s.procs| && s.procs[i].exited ==>
        Step(s, WaitProcess(i, timeout)) == s && Result(s, WaitProcess(i, timeout)) == Success
      ensures i < |s.procs| && !s.procs[i].exited && timeout == 0 ==>
        Step(s, WaitProcess(i, timeout)) == s && Result(s, WaitProcess(i, timeout)) == Timeout
      ensures i < |s.procs| && !s.procs[i].exited && timeout != 0 ==>
        ProcessObj(i) in s.q.waiters && Result(s, WaitProcess(i, timeout)) == Success
        && Step(s, WaitProcess(i, timeout)) == s.(q := DoAll(s.q, [Wait(ProcessObj(i), true), Switch]))
    {
      hide Placed, Up, DoAll;
      assert i < |s.procs| ==> Exists(s, ProcessObj(i));
      NoMoves(s.q);
    }

    /** NT_WAIT_SINGLE on a process handle. */
    method ProcessWait(i: nat, timeout: nat) returns (r: Status)
      requires Valid()
      modifies this`st, this`heads, procs`exitWaiters, sched`q, sched`current, sched`quantum
      modifies st.q.place.Keys`waitNext, st.q.place.Keys`state, st.q.place.Keys`next, st.q.place.Keys`prev
      modifies sched.sentinel`next, sched.sentinel`prev
      ensures Sound() && st == Step(old(st), WaitProcess(i, timeout)) && r == Result(old(st), WaitProcess(i, timeout))
      ensures old(Allowed(st, WaitProcess(i, timeout))) ==> Valid()
    {
      hide Valid, Sound, Inv, Chains, TablesRep, HomesOk, Scheduler.Rep, ThreadsOk, KeysOk, TablesOk, DoAll, Placed,
        Parked, Step, Result;
      ValidIs();
      WaitProcessFacts(st, i, timeout);
      Prepare(WaitProcess(i, timeout));
      ghost var after, allowed := Step(st, WaitProcess(i, timeout)), Allowed(st, WaitProcess(i, timeout));
      if i >= |procs| { return InvalidHandle; }
      ProcessFields(TablesOf(st), heads, st.q.waiters, i);
      r := Success;
      if procs[i].exited { return; }
      if timeout == 0 { return Timeout; }
      BlockEffect(st.q, ProcessObj(i), true);
      BlockOnProcess(i, [st.q.current] + st.q.waiters[ProcessObj(i)], after);
      if allowed { SoundIsValid(); }
    }

    // ---- Calls that touch no object ----------------------------------------------------------------

    ghost predicate Quiet(e: Effect<KThread>) { e.NoEffect? || e.Give? || e.Nap? || e.Advance? || e.Rank? }

    /** Such a call leaves the wait lists, the objects and the set of threads as they are. */
    lemma QuietStep(s: State<KThread>, op: Op<KThread>)
      requires Inv(s) && |s.q.ready| == PRIORITIES && Allowed(s, op) && Quiet(EffectOf(s, op))
      requires TablesOf(Objects(s, op)) == TablesOf(s)
      ensures Step(s, op).q.waiters == s.q.waiters && Step(s, op).q.place.Keys == s.q.place.Keys
      ensures TablesOf(Step(s, op)) == TablesOf(s)
    {
      hide Placed, Up, Moves, DoAll, EffectOf, Objects, KeysOk, Allowed, Fit, InRange, EventsOk, SemasOk, MutantsOk,
        ProcessesOk, SleepOk;
      EffectFits(s, op);
      EffectLists(s.q, s.now, EffectOf(s, op));
      EffectLiving(s.q, s.now, EffectOf(s, op), s.main);
    }

    lemma YieldFacts(s: State<KThread>)
      requires |s.q.ready| == PRIORITIES
      ensures Allowed(s, Yield) && Quiet(EffectOf(s, Yield)) && Objects(s, Yield) == s
      ensures Step(s, Yield).q == Dispatch(s.q)
    {
      OneMove(s.q, Switch);
    }

    /** Schedule, called to yield. */
    method Schedule()
      requires Valid()
      modifies this`st, sched`q, sched`current, sched`quantum
      modifies st.q.place.Keys`state, st.q.place.Keys`next, st.q.place.Keys`prev, sched.sentinel`next,
        sched.sentinel`prev
      ensures Valid() && st == Step(old(st), Yield)
    {
      hide Valid, Sound, Inv, Chains, TablesRep, HomesOk, Scheduler.Rep, ThreadsOk, KeysOk, TablesOk, Dispatch,
        Placed, Step, Allowed, EffectOf, TablesOf;
      ValidIs();
      YieldFacts(st);
      Prepare(Yield);
      QuietStep(st, Yield);
      ghost var after := Step(st, Yield);
      ScheduleKeepingLists(heads, st.q.waiters, st.q.place.Keys);
      Settle(after);
      SoundIsValid();
    }

    lemma SleepFacts(s: State<KThread>, ms: nat)
      requires |s.q.ready| == PRIORITIES
      ensures Quiet(EffectOf(s, Op.Sleep(ms))) && Objects(s, Op.Sleep(ms)) == s
      ensures Step(s, Op.Sleep(ms)).q == DoAll(s.q, if ms == 0 then [] else [Move.Doze(s.now + SleepTicks(ms)), Switch])
    {
      hide DoAll;
    }

    method SleepKeepingLists(ms: nat, ghost hs: map<Obj, KThread?>, ghost ws: map<Obj, seq<KThread>>,
                             ghost threads: set<KThread>)
      requires sched.Rep() && sched.CurrentRuns() && Chains(hs, ws, threads)
      modifies sched`q, sched`current, sched`quantum, sched`sleepHead
      modifies sched.q.place.Keys`state, sched.q.place.Keys`next, sched.q.place.Keys`prev
      modifies sched.q.place.Keys`sleepNext, sched.q.place.Keys`sleepUntil, sched.sentinel`next, sched.sentinel`prev
      ensures sched.Rep() && Chains(hs, ws, threads)
      ensures |old(sched.q).ready| == PRIORITIES
        && sched.q == DoAll(old(sched.q), if ms == 0 then [] else [Move.Doze(ticks + SleepTicks(ms)), Switch])
    {
      hide Scheduler.Rep, Chains, DoAll;
      sched.Sleep(ms, ticks);
    }

    /** A sleep leaves the wait lists, the objects and the set of threads as they are. */
    lemma SleepStep(s: State<KThread>, ms: nat)
      requires |s.q.ready| == PRIORITIES && Placed(s.q)
      ensures var r := Step(s, Op.Sleep(ms));
        r.q.waiters == s.q.waiters && r.q.place.Keys == s.q.place.Keys && TablesOf(r) == TablesOf(s)
    {
      hide DoAll, Do, EffectOf, Dispatch, Parked, SleepTicks;
      SleepFacts(s, ms);
      NoMoves(s.q);
      if ms > 0 {
        var m: Move<KThread> := Move.Doze(s.now + SleepTicks(ms));
        ThenSwitch(s.q, m);
        DozeFrame(s.q, s.now + SleepTicks(ms));
        SwitchKeepsLists(Do(s.q, m));
      }
    }

    lemma DozeFrame(q: Queues<KThread>, until: nat)
      requires |q.ready| == PRIORITIES && Placed(q)
      ensures var r := Do(q, Move.Doze(until));
        r.waiters == q.waiters && r.place.Keys == q.place.Keys && Parked(r) && |r.ready| == PRIORITIES
    {
      MoveParked(q, Move.Doze(until));
      hide Lists;
    }

    /** Sleep, of any thread; the state stays consistent if the call is allowed. */
    method Sleep(ms: nat)
      requires Valid()
      modifies this`st, sched`q, sched`current, sched`quantum, sched`sleepHead
      modifies st.q.place.Keys`state, st.q.place.Keys`next, st.q.place.Keys`prev, sched.sentinel`next,
        sched.sentinel`prev
      modifies st.q.place.Keys`sleepNext, st.q.place.Keys`sleepUntil
      ensures Sound() && st == Step(old(st), Op.Sleep(ms)) && (old(Allowed(st, Op.Sleep(ms))) ==> Valid())
    {
      hide Valid, Sound, Inv, Chains, TablesRep, HomesOk, Scheduler.Rep, ThreadsOk, KeysOk, TablesOk, DoAll, Placed,
        Step, Allowed, EffectOf, TablesOf;
      ValidIs();
      CurrentIsPlaced(st.q);
      SleepFacts(st, ms);
      Prepare(Op.Sleep(ms));
      SleepStep(st, ms);
      ghost var after, allowed := Step(st, Op.Sleep(ms)), Allowed(st, Op.Sleep(ms));
      SleepKeepingLists(ms, heads, st.q.waiters, st.q.place.Keys);
      Settle(after);
      if allowed { SoundIsValid(); }
    }

    lemma TickFacts(s: State<KThread>)
      requires |s.q.ready| == PRIORITIES
      ensures Allowed(s, Op.Tick) && Quiet(EffectOf(s, Op.Tick)) && Objects(s, Op.Tick) == s.(now := s.now + 1)
      ensures Step(s, Op.Tick).q == DoAll(s.q, Moves(s.q, s.now, Advance)) && Step(s, Op.Tick).now == s.now + 1
    {
      hide DoAll, Moves;
    }

    method TickKeepingLists(now: nat, ghost hs: map<Obj, KThread?>, ghost ws: map<Obj, seq<KThread>>,
                            ghost threads: set<KThread>)
      requires sched.Rep() && sched.CurrentRuns() && Chains(hs, ws, threads) && now > 0
      modifies sched`q, sched`current, sched`quantum, sched`sleepHead
      modifies sched.q.place.Keys`state, sched.q.place.Keys`next, sched.q.place.Keys`prev
      modifies sched.q.place.Keys`sleepNext, sched.q.place.Keys`sleepUntil, sched.sentinel`next, sched.sentinel`prev
      ensures sched.Rep() && Chains(hs, ws, threads)
      ensures |old(sched.q).ready| == PRIORITIES
      ensures sched.q == DoAll(old(sched.q), Moves(old(sched.q), now - 1, Advance))
    {
      hide Scheduler.Rep, Chains, DoAll, Moves;
      sched.Tick(now);
    }

    /** The timer interrupt. */
    method TimerTick()
      requires Valid()
      modifies this`st, this`ticks, sched`q, sched`current, sched`quantum, sched`sleepHead
      modifies st.q.place.Keys`state, st.q.place.Keys`next, st.q.place.Keys`prev, sched.sentinel`next,
        sched.sentinel`prev
      modifies st.q.place.Keys`sleepNext, st.q.place.Keys`sleepUntil
      ensures Valid() && st == Step(old(st), Op.Tick) && ticks == old(ticks) + 1
    {
      hide Valid, Sound, Inv, Chains, TablesRep, HomesOk, Scheduler.Rep, ThreadsOk, KeysOk, TablesOk, DoAll, Moves,
        Placed, Step, Allowed, EffectOf, TablesOf;
      ValidIs();
      CurrentIsPlaced(st.q);
      TickFacts(st);
      Prepare(Op.Tick);
      TablesIgnoreTime(st);
      QuietStep(st, Op.Tick);
      ghost var after := Step(st, Op.Tick);
      TickKeepingLists(ticks + 1, heads, st.q.waiters, st.q.place.Keys);
      ticks := ticks + 1;
      Settle(after);
      SoundIsValid();
    }

    lemma TablesIgnoreTime(s: State<KThread>)
      ensures TablesOf(s.(now := s.now + 1)) == TablesOf(s)
    {}

    lemma PriorityFacts(s: State<KThread>, level: nat)
      requires |s.q.ready| == PRIORITIES
      ensures Allowed(s, Op.SetPriority(level)) && Quiet(EffectOf(s, Op.SetPriority(level)))
      ensures Objects(s, Op.SetPriority(level)) == s
      ensures Step(s, Op.SetPriority(level)).q == if level < PRIORITIES then Do(s.q, Reprioritize(level)) else s.q
      ensures level >= PRIORITIES ==> Step(s, Op.SetPriority(level)) == s
      ensures Result(s, Op.SetPriority(level)) == if level < PRIORITIES then Success else InvalidParameter
    {
      OneMove(s.q, Reprioritize(level));
      NoMoves(s.q);
    }

    method RankKeepingLists(level: nat, ghost hs: map<Obj, KThread?>, ghost ws: map<Obj, seq<KThread>>,
                            ghost threads: set<KThread>)
      requires sched.Rep() && sched.CurrentRuns() && Chains(hs, ws, threads)
      modifies sched`q, sched.q.current`priority
      ensures sched.Rep() && Chains(hs, ws, threads)
      ensures |old(sched.q).ready| == PRIORITIES && sched.q == Do(old(sched.q), Reprioritize(level))
    {
      hide Scheduler.Rep, Chains, Do;
      sched.SetPriority(level);
    }

    /** NT_SET_THREAD_INFO with information class 0. */
    method SetPriority(level: nat) returns (r: Status)
      requires Valid()
      modifies this`st, sched`q, st.q.current`priority
      ensures Valid() && st == Step(old(st), Op.SetPriority(level)) && r == Result(old(st), Op.SetPriority(level))
    {
      hide Valid, Sound, Inv, Chains, TablesRep, HomesOk, Scheduler.Rep, ThreadsOk, KeysOk, TablesOk, Do, Placed,
        Step, Allowed, EffectOf, TablesOf, Result;
      ValidIs();
      CurrentIsPlaced(st.q);
      PriorityFacts(st, level);
      Prepare(Op.SetPriority(level));
      QuietStep(st, Op.SetPriority(level));
      ghost var after := Step(st, Op.SetPriority(level));
      if level >= PRIORITIES { return InvalidParameter; }
      RankKeepingLists(level, heads, st.q.waiters, st.q.place.Keys);
      Settle(after);
      SoundIsValid();
      r := Success;
    }

    // ---- Threads come and go -------------------------------------------------------------------

    lemma SpawnFacts(s: State<KThread>, t: KThread, p: nat)
      requires ThreadsOk(s) && KeysOk(s) && t !in s.q.place && p < |s.procs| && HomesOk(s) && t.home == p
      ensures Allowed(s, Spawn(t, p)) && HomesOk(Step(s, Spawn(t, p)))
      ensures Step(s, Spawn(t, p)) == s.(q := Do(s.q, Admit(t, NORMAL)), home := s.home[t := p],
        procs := s.procs[p := s.procs[p].(threads := s.procs[p].threads + 1)])
      ensures Do(s.q, Admit(t, NORMAL)).waiters == s.q.waiters
      ensures Do(s.q, Admit(t, NORMAL)).place.Keys == s.q.place.Keys + {t}
    {
      hide Placed, Up;
      OneMove(s.q, Admit(t, NORMAL));
    }

    lemma InvThreads(s: State<KThread>)
      requires Inv(s)
      ensures ThreadsOk(s) && KeysOk(s)
    {}

    /** The state after a thread was started, as far as the kernel object is concerned. */
    lemma StartFacts(s: State<KThread>, t: KThread, p: nat)
      requires Inv(s) && t !in s.q.place && p < |s.procs| && HomesOk(s) && t.home == p && |s.q.ready| == PRIORITIES
      ensures var r := Step(s, Spawn(t, p)); var x := TablesOf(s);
        && Inv(r) && HomesOk(r) && r.q == Do(s.q, Admit(t, NORMAL)) && r.now == s.now
        && r.q.waiters == s.q.waiters && r.q.place.Keys == s.q.place.Keys + {t}
        && |x.procs| == |s.procs|
        && TablesOf(r) == x.(procs := x.procs[p := x.procs[p].(threads := x.procs[p].threads + 1)])
    {
      hide Inv, HomesOk, ThreadsOk, KeysOk, Step, Do, Allowed, Placed;
      InvThreads(s);
      SpawnFacts(s, t, p);
      StepKeepsInvariant(s, Spawn(t, p));
    }

    lemma ChainsGrow(hs: map<Obj, KThread?>, ws: map<Obj, seq<KThread>>, threads: set<KThread>, more: set<KThread>)
      requires Chains(hs, ws, threads)
      ensures Chains(hs, ws, threads + more)
    {
      hide WaitChain;
    }

    method StoreThreadCount(p: nat, count: nat, ghost x: Tables, ghost hs: map<Obj, KThread?>,
                            ghost ws: map<Obj, seq<KThread>>)
      requires TablesOk() && p < |procs| == |x.procs| && sched.Rep() && TablesRep(x, hs, ws, None)
      modifies procs`threadCount
      ensures TablesRep(x.(procs := x.procs[p := x.procs[p].(threads := count)]), hs, ws, None) && sched.Rep()
    {
      hide Parked, Scheduler.RingsOk, Scheduler.StatesOk, Scheduler.SentinelsOut, Scheduler.DeadlinesOk, SleepChain;
      hide EventsRep, SemasRep, MutantsRep;
      procs[p].threadCount := count;
    }

    method AddThreadKeepingLists(t: KThread, ghost hs: map<Obj, KThread?>, ghost ws: map<Obj, seq<KThread>>,
                                 ghost threads: set<KThread>)
      requires |sched.q.ready| == PRIORITIES && sched.Rep() && t !in sched.q.place && t !in sched.sentinel
      requires Chains(hs, ws, threads)
      modifies sched`q, t`state, t`next, t`prev
      modifies sched.q.place.Keys`next, sched.q.place.Keys`prev, sched.sentinel`next, sched.sentinel`prev
      ensures sched.Rep() && Chains(hs, ws, threads)
      ensures sched.q == Do(old(sched.q), Admit(t, old(t.priority)))
    {
      hide Scheduler.Rep, Chains, Do;
      sched.AddThread(t);
    }

    /** Both stores of a creation, beside the tables and the wait lists. */
    method LinkThread(t: KThread, p: nat, ghost x: Tables, ghost hs: map<Obj, KThread?>,
                      ghost ws: map<Obj, seq<KThread>>, ghost threads: set<KThread>)
      requires TablesOk() && p < |procs| == |x.procs| && TablesRep(x, hs, ws, None)
      requires procs[p].threadCount == x.procs[p].threads && Chains(hs, ws, threads)
      requires |sched.q.ready| == PRIORITIES && sched.Rep() && t !in sched.q.place && t !in sched.sentinel
      modifies procs`threadCount, sched`q, t`state, t`next, t`prev
      modifies sched.q.place.Keys`next, sched.q.place.Keys`prev, sched.sentinel`next, sched.sentinel`prev
      ensures TablesRep(x.(procs := x.procs[p := x.procs[p].(threads := x.procs[p].threads + 1)]), hs, ws, None)
      ensures Chains(hs, ws, threads) && sched.Rep() && sched.q == Do(old(sched.q), Admit(t, old(t.priority)))
    {
      hide Chains, TablesRep, Scheduler.Rep, TablesOk, Do;
      StoreThreadCount(p, procs[p].threadCount + 1, x, hs, ws);
      AddThreadKeepingLists(t, hs, ws, threads);
    }

    /** Counts and readies a thread that has just been created. */
    method StartThread(t: KThread, p: nat)
      requires Valid() && p < |procs| && t.home == p && t.priority == NORMAL && t !in st.q.place && t !in sched.sentinel
      modifies this`st, procs`threadCount, sched`q, t`state, t`next, t`prev
      modifies st.q.place.Keys`next, st.q.place.Keys`prev, sched.sentinel`next, sched.sentinel`prev
      ensures Valid() && st == Step(old(st), Spawn(t, p))
    {
      hide Valid, Sound, Inv, Chains, TablesRep, HomesOk, Scheduler.Rep, ThreadsOk, KeysOk, TablesOk, Do, Placed,
        Step, Allowed, TablesOf;
      ValidIs();
      StartFacts(st, t, p);
      ProcessFields(TablesOf(st), heads, st.q.waiters, p);
      ChainsGrow(heads, st.q.waiters, st.q.place.Keys, {t});
      LinkThread(t, p, TablesOf(st), heads, st.q.waiters, st.q.place.Keys + {t});
      Settle(Step(st, Spawn(t, p)));
      SoundIsValid();
    }

    /** CreateKernelThread or CreateUserThread, and AddThread. */
    method CreateThread(p: nat) returns (t: KThread)
      requires Valid() && p < |procs|
      modifies this`st, procs`threadCount, sched`q
      modifies st.q.place.Keys`next, st.q.place.Keys`prev, sched.sentinel`next, sched.sentinel`prev
      ensures Valid() && fresh(t) && st == Step(old(st), Spawn(t, p))
    {
      t := new KThread(p);
      StartThread(t, p);
    }

    lemma ExitMoves(q: Queues<KThread>, o: Obj, n: nat)
      requires |q.ready| == PRIORITIES
      ensures DoAll(q, [Finish] + (WakeMoves(o, n) + [Switch])) == Dispatch(DoAll(Do(q, Finish), WakeMoves(o, n)))
    {
      var ws: seq<Move<KThread>> := WakeMoves(o, n);
      var r := DoAll(Do(q, Finish), ws);
      DoAllAppend(q, [Finish], ws + [Switch]);
      OneMove(q, Finish);
      DoAllAppend(Do(q, Finish), ws, [Switch]);
      OneMove(r, Switch);
    }

    /** How many threads the exit of the current thread wakes. */
    ghost function ExitWakes(s: State<KThread>): nat {
      if Home(s) < |s.procs| && s.procs[Home(s)].threads == 1 then |WaitersOf(s.q, ProcessObj(Home(s)))| else 0
    }

    lemma ExitFacts(s: State<KThread>)
      requires ThreadsOk(s) && KeysOk(s) && ProcessesOk(s)
      ensures var h := Home(s); var n := ExitWakes(s);
        && h < |s.procs| && s.procs[h].threads > 0 && s.q.current in s.home && s.home[s.q.current] == h
          && ProcessObj(h) in s.q.waiters
        && Step(s, Exit) == s.(q := Dispatch(DoAll(Do(s.q, Finish), WakeMoves(ProcessObj(h), n))),
             procs := s.procs[h := Process(s.procs[h].threads - 1, s.procs[h].exited || s.procs[h].threads == 1)])
    {
      hide Placed, Up, DoAll, Do, Dispatch, WakeMoves, KeysOk, Living, ExitWakes, WaitersOf, Home, Step;
      ExitFits(s);
      CurrentLives(s);
      assert ProcessOk(s, Home(s));
      LivingIsCounted(s);
      HomeIs(s);
      ExitIs(s);
      ExitMoves(s.q, ProcessObj(Home(s)), ExitWakes(s));
    }

    lemma HomeIs(s: State<KThread>)
      requires s.q.current in s.home
      ensures Home(s) == s.home[s.q.current]
    {}

    lemma ExitIs(s: State<KThread>)
      requires |s.q.ready| == PRIORITIES && Home(s) < |s.procs| && s.procs[Home(s)].threads > 0
      ensures s.q.current != s.main ==> Allowed(s, Exit)
      ensures var h := Home(s);
        Step(s, Exit) == s.(q := DoAll(s.q, [Finish] + (WakeMoves(ProcessObj(h), ExitWakes(s)) + [Switch])),
          procs := s.procs[h := Process(s.procs[h].threads - 1, s.procs[h].exited || s.procs[h].threads == 1)])
    {
      hide DoAll, WakeMoves, WaitersOf, Home;
    }

    lemma LivingIsCounted(s: State<KThread>)
      requires s.q.current in Living(s.q, s.home, Home(s))
      ensures |Living(s.q, s.home, Home(s))| > 0
    {}

    /** The queues after the current thread is marked TERMINATED. */
    lemma FinishFacts(q: Queues<KThread>)
      requires |q.ready| == PRIORITIES && Placed(q)
      ensures var r := Do(q, Finish);
        && r.waiters == q.waiters && r.place.Keys == q.place.Keys && |r.ready| == PRIORITIES && Parked(r)
        && r.current == q.current && r.current in r.place && r.place[r.current] == Terminated
    {
      MoveParked(q, Finish);
      hide Lists;
    }

    method FinishKeepingLists(ghost hs: map<Obj, KThread?>, ghost ws: map<Obj, seq<KThread>>,
                              ghost threads: set<KThread>)
      requires sched.Rep() && sched.CurrentRuns() && Chains(hs, ws, threads)
      modifies sched`q, sched.q.current`state
      ensures sched.Rep() && Chains(hs, ws, threads)
      ensures |old(sched.q).ready| == PRIORITIES && sched.q == Do(old(sched.q), Finish)
    {
      hide Scheduler.Rep, Chains, Do;
      sched.FinishCurrentThread();
    }

    /** The other tables do not mention the link field of a process. */
    lemma ButProcess(x: Tables, hs: map<Obj, KThread?>, ws: map<Obj, seq<KThread>>, h: nat)
      requires TablesRep(x, hs, ws, None)
      ensures var but := Some(ProcessObj(h));
        EventsRep(x.events, hs, but) && SemasRep(x.semas, hs, ws, but) && MutantsRep(x.mutants, hs, ws, but)
    {}

    /** `--tp->thread_count`, and for the last thread `exited = true` and the list is taken away. */
    method StoreExit(h: nat, ghost x: Tables, ghost hs: map<Obj, KThread?>, ghost ws: map<Obj, seq<KThread>>)
        returns (w: KThread?)
      requires TablesOk() && h < |procs| == |x.procs| && x.procs[h].threads > 0 && sched.Rep()
      requires TablesRep(x, hs, ws, None)
      modifies procs`threadCount, procs`exited, procs`exitWaiters
      ensures sched.Rep() && ProcessObj(h) in hs
      ensures x.procs[h].threads == 1 ==> w == hs[ProcessObj(h)] && procs[h].exitWaiters == null
      ensures x.procs[h].threads != 1 ==> w == null
      ensures TablesRep(x.(procs := x.procs[h := Process(x.procs[h].threads - 1,
                                                         x.procs[h].exited || x.procs[h].threads == 1)]),
                        hs, ws, if x.procs[h].threads == 1 then Some(ProcessObj(h)) else None)
    {
      hide Parked, Scheduler.RingsOk, Scheduler.StatesOk, Scheduler.SentinelsOut, Scheduler.DeadlinesOk, SleepChain,
        EventsRep, SemasRep, MutantsRep;
      ButProcess(x, hs, ws, h);
      var p := procs[h];
      w := null;
      if p.threadCount > 0 {
        p.threadCount := p.threadCount - 1;
        if p.threadCount == 0 {
          p.exited := true;
          w := p.exitWaiters;
          p.exitWaiters := null;
        }
      }
    }

    /** What the exit loop keeps: the terminated thread still holds the processor. */
    ghost predicate Exiting(o: Obj)
      reads this`heads, sched`q
    {
      && |sched.q.ready| == PRIORITIES && sched.q.current in sched.q.place
        && sched.q.place[sched.q.current] == Terminated
      && o in sched.q.waiters && o in heads
    }

    method WakeExitWaiter(ghost o: Obj, w: KThread, ghost list: seq<KThread>) returns (next: KThread?)
      requires sched.Rep() && Exiting(o) && Chains(heads, sched.q.waiters, sched.q.place.Keys)
      requires heads[o] == w && list == sched.q.waiters[o]
      modifies this`heads, sched`q, sched.q.place.Keys`waitNext, sched.q.place.Keys`state
      modifies sched.q.place.Keys`next, sched.q.place.Keys`prev, sched.sentinel`next, sched.sentinel`prev
      ensures sched.Rep() && Exiting(o) && Chains(heads, sched.q.waiters, sched.q.place.Keys)
      ensures sched.q.place.Keys == old(sched.q.place.Keys) && heads == old(heads)[o := next]
      ensures list != [] && sched.q.waiters[o] == list[1..]
      ensures DoAll(sched.q, WakeMoves(o, |list| - 1)) == DoAll(old(sched.q), WakeMoves(o, |list|))
    {
      hide Scheduler.Rep, Chains, Do, DoAll, WakeMoves, Parked;
      HeadIsFirst(heads, sched.q.waiters, sched.q.place.Keys, o);
      sched.RepIs();
      WakeKeeps(sched.q, o);
      WakeOneAndOthers(sched.q, o, |list|);
      next := WakeWaiter(o, w);
    }

    /** Wakes every thread of a list that no object points to any more. */
    method WakeExitWaiters(ghost o: Obj, first: KThread?, ghost list: seq<KThread>)
      requires sched.Rep() && Exiting(o) && Chains(heads, sched.q.waiters, sched.q.place.Keys)
      requires heads[o] == first && list == sched.q.waiters[o]
      modifies this`heads, sched`q, sched.q.place.Keys`waitNext, sched.q.place.Keys`state
      modifies sched.q.place.Keys`next, sched.q.place.Keys`prev, sched.sentinel`next, sched.sentinel`prev
      ensures sched.Rep() && Exiting(o) && Chains(heads, sched.q.waiters, sched.q.place.Keys)
      ensures sched.q.place.Keys == old(sched.q.place.Keys) && heads == old(heads)[o := null]
      ensures sched.q == DoAll(old(sched.q), WakeMoves(o, |list|))
    {
      hide Scheduler.Rep, Chains, Do, DoAll, WakeMoves;
      ghost var goal, rest := DoAll(sched.q, WakeMoves(o, |list|)), list;
      var w := first;
      while w != null
        invariant sched.Rep() && Exiting(o) && Chains(heads, sched.q.waiters, sched.q.place.Keys)
        invariant sched.q.place.Keys == old(sched.q.place.Keys) && heads == old(heads)[o := w]
        invariant rest == sched.q.waiters[o] && DoAll(sched.q, WakeMoves(o, |rest|)) == goal
        decreases |rest|
      {
        w := WakeExitWaiter(o, w, rest);
        rest := rest[1..];
      }
      HeadIsFirst(heads, sched.q.waiters, sched.q.place.Keys, o);
      WakeNone(sched.q, o);
    }

    lemma WakeNone(q: Queues<KThread>, o: Obj)
      requires |q.ready| == PRIORITIES
      ensures DoAll(q, WakeMoves(o, 0)) == q
    {}

    /** After the exit loop the object's list is empty, as its link field says. */
    lemma ListTakenAway(x: Tables, hs: map<Obj, KThread?>, ws: map<Obj, seq<KThread>>, h: nat)
      requires h < |procs| && procs[h].exitWaiters == null && TablesRep(x, hs, ws, Some(ProcessObj(h)))
      ensures TablesRep(x, hs[ProcessObj(h) := null], ws[ProcessObj(h) := []], None)
    {}

    lemma WokenAll(q: Queues<KThread>, o: Obj, list: seq<KThread>)
      requires |q.ready| == PRIORITIES && o in q.waiters && list == q.waiters[o]
      ensures DoAll(q, WakeMoves(o, |list|)).waiters == q.waiters[o := []]
    {
      WakeMovesLists(q, o, |list|);
      assert q.waiters[o][|list|..] == [];
    }

    /** The objects after the exit, and the waiters it wakes. */
    method LeaveProcess(h: nat, ghost n: nat, ghost x: Tables, ghost y: Tables, ghost ws: map<Obj, seq<KThread>>)
      requires TablesOk() && h < |procs| == |x.procs| && x.procs[h].threads > 0 && TablesRep(x, heads, ws, None)
      requires y == x.(procs := x.procs[h := Process(x.procs[h].threads - 1,
                                                     x.procs[h].exited || x.procs[h].threads == 1)])
      requires sched.Rep() && ws == sched.q.waiters && Exiting(ProcessObj(h))
      requires Chains(heads, sched.q.waiters, sched.q.place.Keys)
      requires n == if x.procs[h].threads == 1 then |ws[ProcessObj(h)]| else 0
      modifies this`heads, procs`threadCount, procs`exited, procs`exitWaiters
      modifies sched`q, sched.q.place.Keys`waitNext, sched.q.place.Keys`state
      modifies sched.q.place.Keys`next, sched.q.place.Keys`prev, sched.sentinel`next, sched.sentinel`prev
      ensures sched.Rep() && Chains(heads, sched.q.waiters, sched.q.place.Keys) && |sched.q.ready| == PRIORITIES
      ensures sched.q == DoAll(old(sched.q), WakeMoves(ProcessObj(h), n)) && TablesRep(y, heads, sched.q.waiters, None)
      ensures sched.q.place.Keys == old(sched.q.place.Keys)
    {
      hide Scheduler.Rep, Chains, DoAll, WakeMoves, TablesRep, TablesOk;
      ghost var o := ProcessObj(h);
      var w := StoreExit(h, x, heads, ws);
      WakeNone(sched.q, o);
      if w != null {
        WokenAll(sched.q, o, sched.q.waiters[o]);
        WakeExitWaiters(o, w, sched.q.waiters[o]);
        ListTakenAway(y, old(heads), ws, h);
      } else if x.procs[h].threads == 1 {
        HeadIsFirst(heads, sched.q.waiters, sched.q.place.Keys, o);
        ListTakenAway(y, heads, ws, h);
        assert heads[o := null] == heads && ws[o := []] == ws;
      }
    }

    lemma InvHasProcesses(s: State<KThread>)
      requires Inv(s)
      ensures ProcessesOk(s)
    {}

    lemma SwitchKeepsLists(q: Queues<KThread>)
      requires |q.ready| == PRIORITIES && Parked(q)
      ensures Dispatch(q).waiters == q.waiters && Dispatch(q).place.Keys == q.place.Keys
    {
      SwitchFrame(q);
      hide Lists;
      if Highest(q.ready) < PRIORITIES { SwitchFacts(q); }
    }

    /** TerminateCurrentThread, of any thread; the state stays consistent if it is not the main one. */
    method Terminate()
      requires Valid()
      modifies this`st, this`heads, procs`threadCount, procs`exited, procs`exitWaiters, sched`q, sched`current,
        sched`quantum
      modifies st.q.place.Keys`waitNext, st.q.place.Keys`state, st.q.place.Keys`next, st.q.place.Keys`prev
      modifies sched.sentinel`next, sched.sentinel`prev
      ensures Sound() && st == Step(old(st), Exit) && (old(Allowed(st, Exit)) ==> Valid())
    {
      hide Valid, Sound, Inv, Chains, TablesRep, Scheduler.Rep, ThreadsOk, KeysOk, ProcessesOk, TablesOk, DoAll, Do,
        Dispatch, WakeMoves, Placed, Parked, Step, Allowed, Home, ExitWakes;
      ValidIs();
      InvHasProcesses(st);
      ExitFacts(st);
      Prepare(Exit);
      FinishFacts(st.q);
      CurrentIsPlaced(st.q);
      ghost var after, allowed := Step(st, Exit), Allowed(st, Exit);
      ghost var h := Home(st);
      var t := sched.current;
      assert t == st.q.current by { sched.RepIs(); }
      ExitWakesIs(st);
      ListedObjects(heads, st.q.waiters, st.q.place.Keys, ProcessObj(h));
      TableSizes(TablesOf(st), heads, st.q.waiters);
      FinishKeepingLists(heads, st.q.waiters, st.q.place.Keys);
      LeaveProcess(t.home, ExitWakes(st), TablesOf(st), TablesOf(after), st.q.waiters);
      SwitchAndSettle(after);
      if allowed { SoundIsValid(); }
    }

    /** Schedule, and the call is done. */
    method SwitchAndSettle(ghost after: State<KThread>)
      requires sched.Rep() && |sched.q.ready| == PRIORITIES && after.q == Dispatch(sched.q)
      requires Chains(heads, sched.q.waiters, sched.q.place.Keys)
      requires TablesRep(TablesOf(after), heads, sched.q.waiters, None)
      requires TablesOk() && HomesOk(after) && ticks == after.now
      modifies this`st, sched`q, sched`current, sched`quantum
      modifies sched.q.place.Keys`state, sched.q.place.Keys`next, sched.q.place.Keys`prev, sched.sentinel`next,
        sched.sentinel`prev
      ensures Sound() && st == after
    {
      hide Valid, Sound, Inv, Chains, TablesRep, HomesOk, Scheduler.Rep, TablesOk, Dispatch, TablesOf, Parked;
      sched.RepIs();
      SwitchKeepsLists(sched.q);
      ScheduleKeepingLists(heads, sched.q.waiters, sched.q.place.Keys);
      Settle(after);
    }

    lemma ExitWakesIs(s: State<KThread>)
      requires Home(s) < |s.procs| && ProcessObj(Home(s)) in s.q.waiters
      ensures ExitWakes(s) == if s.procs[Home(s)].threads == 1 then |s.q.waiters[ProcessObj(Home(s))]| else 0
    {}

    lemma ListedObjects(hs: map<Obj, KThread?>, ws: map<Obj, seq<KThread>>, threads: set<KThread>, o: Obj)
      requires Chains(hs, ws, threads) && o in ws
      ensures o in hs
    {}

    lemma TableSizes(x: Tables, hs: map<Obj, KThread?>, ws: map<Obj, seq<KThread>>)
      requires TablesRep(x, hs, ws, None)
      ensures |x.procs| == |procs|
    {}
  }
}
