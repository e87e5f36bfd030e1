/** Where every thread is (kernel/ps/scheduler.cpp and the wait lists of kernel/sync/event.cpp,
    kernel/syscall/syscall.cpp and kernel/ps/process.cpp).

    A scheduler or blocking call is a short list of `Move`s on the `Queues`: the manipulations of
    the ready rings, the sleep list and the wait lists.  `Placed` is the promise that every thread
    is in exactly one place. */
module QueueSpec {

  datatype Obj = EventObj(i: nat) | SemaObj(i: nat) | MutantObj(i: nat) | ProcessObj(i: nat)

  datatype Place = Running | Ready(pri: nat) | Asleep | Waiting(obj: Obj) | Terminated

  datatype Queues<T(==)> = Queues(
    current: T,
    ready: seq<seq<T>>,            // by priority: LOW, NORMAL, HIGH
    sleepers: seq<T>,
    waiters: map<Obj, seq<T>>,
    place: map<T, Place>,
    pri: map<T, nat>,
    until: map<T, nat>,            // meaningful for sleepers only
    quantum: nat)

  const PRIORITIES: nat := 3
  const NORMAL: nat := 1
  const QUANTUM_TICKS: nat := 5

  function ClampPri(p: nat): nat { if p < PRIORITIES then p else NORMAL }

  /** The ready queue a thread is pushed on. */
  ghost function Level<T>(q: Queues<T>, t: T): nat { if t in q.pri then ClampPri(q.pri[t]) else NORMAL }

  // ---- Placement ---------------------------------------------------------------------

  ghost predicate NoDup<T>(s: seq<T>) { forall i, j | 0 <= i < j < |s| :: s[i] != s[j] }

  /** The queue holds exactly the threads at the place, each once. */
  ghost predicate Holds<T>(s: seq<T>, place: map<T, Place>, at: Place) {
    && NoDup(s)
    && (forall t | t in s :: t in place && place[t] == at)
    && (forall t | t in place && place[t] == at :: t in s)
  }

  ghost predicate HasList<T>(q: Queues<T>, at: Place) {
    match at
    case Ready(p) => p < PRIORITIES
    case Asleep => true
    case Waiting(o) => o in q.waiters
    case _ => false
  }

  ghost function ListAt<T>(q: Queues<T>, at: Place): seq<T>
    requires |q.ready| == PRIORITIES
  {
    match at
    case Ready(p) => if p < PRIORITIES then q.ready[p] else []
    case Asleep => q.sleepers
    case Waiting(o) => if o in q.waiters then q.waiters[o] else []
    case _ => []
  }

  /** Every queue holds exactly the threads placed in it, and every thread that is neither running
      nor terminated is placed in a queue. */
  ghost predicate Lists<T>(q: Queues<T>) {
    && |q.ready| == PRIORITIES
    && (forall at | HasList(q, at) :: Holds(ListAt(q, at), q.place, at))
    && (forall t | t in q.place :: HasList(q, q.place[t]) || q.place[t].Running? || q.place[t].Terminated?)
  }

  /** Only the current thread may be running, and it is in no ready queue. */
  ghost predicate Parked<T>(q: Queues<T>) {
    && Lists(q) && q.current in q.place && !q.place[q.current].Ready?
    && forall t | t in q.place && q.place[t] == Running :: t == q.current
  }

  /** Every thread is in exactly one place, and the current thread is the running one. */
  ghost predicate Placed<T>(q: Queues<T>) { Parked(q) && q.place[q.current] == Running }

  // ---- Moves ----------------------------------------------------------------------------

  datatype Move<T> =
    | Switch                          // ScheduleInternal
    | Wait(obj: Obj, front: bool)     // the current thread joins a wait list
    | Wake(obj: Obj)                  // the first waiter becomes ready
    | Doze(until: nat)                // the current thread joins the sleep list
    | Rouse(k: nat)                   // the sleeper at an index becomes ready
    | Finish                          // the current thread is terminated
    | Admit(t: T, pri: nat)           // a new thread becomes ready
    | Reprioritize(pri: nat)          // of the current thread
    | Burn                            // one tick of the quantum

  /** QueuePushBack of a thread in no queue. */
  ghost function Push<T>(q: Queues<T>, t: T): (r: Queues<T>)
    requires |q.ready| == PRIORITIES
    ensures |r.ready| == PRIORITIES
  {
    var p := Level(q, t);
    q.(ready := q.ready[p := q.ready[p] + [t]], place := q.place[t := Ready(p)])
  }

  /** The queue QueuePop takes from: the highest non-empty one; PRIORITIES when all are empty. */
  ghost function Highest<T>(ready: seq<seq<T>>): (p: nat)
    requires |ready| == PRIORITIES
    ensures p <= PRIORITIES && (p < PRIORITIES ==> ready[p] != [])
    ensures forall k | (if p < PRIORITIES then p + 1 else 0) <= k < PRIORITIES :: ready[k] == []
  {
    if ready[2] != [] then 2 else if ready[1] != [] then 1 else if ready[0] != [] then 0 else 3
  }

  /** ScheduleInternal: the first thread of the highest queue becomes current; the thread it
      displaces goes to the back of its queue if it was still running. */
  ghost function Dispatch<T>(q: Queues<T>): (r: Queues<T>)
    requires |q.ready| == PRIORITIES
    ensures |r.ready| == PRIORITIES
  {
    var p := Highest(q.ready);
    if p == PRIORITIES then q else
    var next := q.ready[p][0];
    var popped := q.(ready := q.ready[p := q.ready[p][1..]], quantum := QUANTUM_TICKS);
    if next == q.current then Push(popped, next) else
    var parked := if q.current in q.place && q.place[q.current] == Running then Push(popped, q.current) else popped;
    parked.(current := next, place := parked.place[next := Running])
  }

  ghost function Do<T>(q: Queues<T>, m: Move<T>): (r: Queues<T>)
    requires |q.ready| == PRIORITIES
    ensures |r.ready| == PRIORITIES
  {
    match m
    case Switch => Dispatch(q)
    case Wait(o, front) =>
      if o !in q.waiters then q else
      q.(waiters := q.waiters[o := if front then [q.current] + q.waiters[o] else q.waiters[o] + [q.current]],
         place := q.place[q.current := Waiting(o)])
    case Wake(o) =>
      if o !in q.waiters || q.waiters[o] == [] then q else
      Push(q.(waiters := q.waiters[o := q.waiters[o][1..]]), q.waiters[o][0])
    case Doze(u) =>
      q.(sleepers := [q.current] + q.sleepers, place := q.place[q.current := Asleep], until := q.until[q.current := u])
    case Rouse(k) =>
      if k >= |q.sleepers| then q else
      Push(q.(sleepers := q.sleepers[..k] + q.sleepers[k + 1..]), q.sleepers[k])
    case Finish => q.(place := q.place[q.current := Terminated])
    case Admit(t, p) => Push(q.(pri := q.pri[t := p]), t)
    case Reprioritize(p) => q.(pri := q.pri[q.current := p])
    case Burn => q.(quantum := if q.quantum > 0 then q.quantum - 1 else 0)
  }

  ghost function DoAll<T>(q: Queues<T>, ms: seq<Move<T>>): (r: Queues<T>)
    requires |q.ready| == PRIORITIES
    ensures |r.ready| == PRIORITIES
    decreases |ms|
  {
    if ms == [] then q else DoAll(Do(q, ms[0]), ms[1..])
  }

  lemma {:induction false} DoAllAppend<T>(q: Queues<T>, a: seq<Move<T>>, b: seq<Move<T>>)
    requires |q.ready| == PRIORITIES
    ensures DoAll(q, a + b) == DoAll(DoAll(q, a), b)
    decreases |a|
  {
    if a == [] {
      assert a + b == b;
    } else {
      assert (a + b)[0] == a[0] && (a + b)[1..] == a[1..] + b;
      DoAllAppend(Do(q, a[0]), a[1..], b);
    }
  }

  /** What a move asks of the state: the thread that blocks, exits or changes its priority runs; a
      thread is not made ready while the processor is held by a thread that has just blocked; an
      admitted thread is new. */
  ghost predicate Legal<T>(q: Queues<T>, m: Move<T>) {
    q.current in q.place &&
    match m
    case Switch => true
    case Wait(o, _) => q.place[q.current] == Running && o in q.waiters
    case Wake(_) => q.place[q.current] == Running || q.place[q.current] == Terminated
    case Doze(_) => q.place[q.current] == Running
    case Rouse(_) => q.place[q.current] == Running
    case Finish => q.place[q.current] == Running
    case Admit(t, _) => t !in q.place
    case Reprioritize(_) => q.place[q.current] == Running
    case Burn => true
  }

  // ---- Each move keeps every thread in one place ----------------------------------------------

  lemma HoldsElsewhere<T>(s: seq<T>, place: map<T, Place>, at: Place, t: T, to: Place)
    requires Holds(s, place, at) && at != to && (t in place ==> place[t] != at)
    ensures Holds(s, place[t := to], at)
  {}

  lemma HoldsOneMore<T>(s: seq<T>, place: map<T, Place>, at: Place, t: T)
    requires Holds(s, place, at) && (t in place ==> place[t] != at)
    ensures Holds(s + [t], place[t := at], at) && Holds([t] + s, place[t := at], at)
  {}

  ghost predicate Without<T>(r: seq<T>, s: seq<T>, t: T) {
    exists k: nat | k < |s| :: s[k] == t && r == s[..k] + s[k + 1..]
  }

  lemma WithoutFacts<T>(r: seq<T>, s: seq<T>, t: T)
    requires NoDup(s) && Without(r, s, t)
    ensures NoDup(r) && t in s && forall x :: x in r <==> x in s && x != t
  {
    var k: nat :| k < |s| && s[k] == t && r == s[..k] + s[k + 1..];
    forall x | x in s && x != t ensures x in r {
      var i :| 0 <= i < |s| && s[i] == x;
      assert r[if i < k then i else i - 1] == x;
    }
  }

  lemma HoldsOneLess<T>(r: seq<T>, s: seq<T>, place: map<T, Place>, at: Place, t: T, to: Place)
    requires Holds(s, place, at) && Without(r, s, t) && to != at
    ensures Holds(r, place[t := to], at)
  {
    WithoutFacts(r, s, t);
    hide NoDup, Without;
  }

  /** What becomes of the list at `at` when thread `t` goes to `to`. */
  ghost predicate Relisted<T>(now: seq<T>, was: seq<T>, at: Place, place: map<T, Place>, t: T, to: Place) {
    if at == to then now == was + [t] || now == [t] + was
    else if t in place && at == place[t] then Without(now, was, t)
    else now == was
  }

  lemma RelistedHolds<T>(now: seq<T>, was: seq<T>, at: Place, place: map<T, Place>, t: T, to: Place)
    requires Relisted(now, was, at, place, t, to) && Holds(was, place, at) && (t in place ==> place[t] != to)
    ensures Holds(now, place[t := to], at)
  {
    hide Holds, Without;
    if at == to {
      HoldsOneMore(was, place, at, t);
    } else if t in place && at == place[t] {
      HoldsOneLess(now, was, place, at, t, to);
    } else {
      HoldsElsewhere(was, place, at, t, to);
    }
  }

  /** Taking a thread from one list, if it is in any, to another keeps every list exact. */
  lemma RelistedLists<T>(q: Queues<T>, r: Queues<T>, t: T, to: Place)
    requires Lists(q) && |r.ready| == PRIORITIES && r.place == q.place[t := to] && r.waiters.Keys == q.waiters.Keys
    requires t in q.place ==> q.place[t] != to
    requires HasList(q, to) || to.Running? || to.Terminated?
    requires forall p: nat | p < PRIORITIES :: Relisted(r.ready[p], q.ready[p], Ready(p), q.place, t, to)
    requires Relisted(r.sleepers, q.sleepers, Asleep, q.place, t, to)
    requires forall o | o in q.waiters :: Relisted(r.waiters[o], q.waiters[o], Waiting(o), q.place, t, to)
    ensures Lists(r)
  {
    hide Holds, Relisted;
    forall at | HasList(r, at) ensures Holds(ListAt(r, at), r.place, at) {
      assert HasList(q, at);
      assert Relisted(ListAt(r, at), ListAt(q, at), at, q.place, t, to);
      RelistedHolds(ListAt(r, at), ListAt(q, at), at, q.place, t, to);
    }
    forall x | x in r.place ensures HasList(r, r.place[x]) || r.place[x].Running? || r.place[x].Terminated? {
      if x != t { assert HasList(q, q.place[x]) || q.place[x].Running? || q.place[x].Terminated?; }
    }
  }

  /** A thread in no list is pushed. */
  lemma PushLists<T>(q: Queues<T>, t: T)
    requires Lists(q) && (t in q.place ==> q.place[t].Running? || q.place[t].Terminated?)
    ensures Lists(Push(q, t))
  {
    hide Holds, Without;
    RelistedLists(q, Push(q, t), t, Ready(Level(q, t)));
  }

  lemma HeadWithout<T>(s: seq<T>)
    requires s != []
    ensures Without(s[1..], s, s[0])
  {
    assert s[1..] == s[..0] + s[0 + 1..];
  }

  lemma HeadPlace<T>(q: Queues<T>, at: Place, k: nat)
    requires Lists(q) && HasList(q, at) && k < |ListAt(q, at)|
    ensures ListAt(q, at)[k] in q.place && q.place[ListAt(q, at)[k]] == at
  {
    assert ListAt(q, at)[k] in ListAt(q, at);
  }

  /** The head of a ready queue leaves it and runs. */
  lemma PopLists<T>(q: Queues<T>, p: nat)
    requires Lists(q) && p < PRIORITIES && q.ready[p] != []
    ensures var t := q.ready[p][0];
      t in q.place && q.place[t] == Ready(p)
      && Lists(q.(ready := q.ready[p := q.ready[p][1..]], quantum := QUANTUM_TICKS, place := q.place[t := Running]))
  {
    var t := q.ready[p][0];
    HeadPlace(q, Ready(p), 0);
    HeadWithout(q.ready[p]);
    hide Holds, Without;
    var r := q.(ready := q.ready[p := q.ready[p][1..]], quantum := QUANTUM_TICKS, place := q.place[t := Running]);
    RelistedLists(q, r, t, Running);
  }

  /** The thread a switch gives the processor to. */
  ghost function Next<T>(q: Queues<T>): T
    requires |q.ready| == PRIORITIES
  {
    if Highest(q.ready) < PRIORITIES then q.ready[Highest(q.ready)][0] else q.current
  }

  lemma SwitchLists<T>(q: Queues<T>)
    requires |q.ready| == PRIORITIES && Parked(q) && Highest(q.ready) < PRIORITIES
    ensures Next(q) != q.current && Next(q) in q.place && q.place[Next(q)].Ready?
    ensures Lists(Dispatch(q)) && Dispatch(q).current == Next(q)
    ensures Dispatch(q).place == if q.place[q.current] == Running
      then q.place[q.current := Ready(Level(q, q.current))][Next(q) := Running]
      else q.place[Next(q) := Running]
  {
    hide Lists;
    var p := Highest(q.ready);
    var next := q.ready[p][0];
    PopLists(q, p);
    var popped := q.(ready := q.ready[p := q.ready[p][1..]], quantum := QUANTUM_TICKS,
                     place := q.place[next := Running]);
    if q.place[q.current] == Running {
      PushLists(popped, q.current);
      assert q.place[next := Running][q.current := Ready(Level(q, q.current))] == q.place[q.current := Ready(Level(q,
          q.current))][next := Running];
      SameLists(Push(popped, q.current), Dispatch(q));
    } else {
      SameLists(popped, Dispatch(q));
    }
  }

  /** A switch gives the processor to another thread exactly when one is ready; then, or if the
      current thread still runs, the machine is placed again. */
  lemma SwitchPlaced<T>(q: Queues<T>)
    requires Parked(q)
    ensures Parked(Dispatch(q))
    ensures Placed(Dispatch(q)) <==> Highest(q.ready) < PRIORITIES || q.place[q.current] == Running
    ensures Dispatch(q).current == Next(q) && (Highest(q.ready) < PRIORITIES <==> Next(q) != q.current)
  {
    if Highest(q.ready) < PRIORITIES {
      SwitchLists(q);
      hide Lists, Dispatch;
    }
  }

  /** The queues without the thread a switch takes. */
  ghost function Popped<T>(q: Queues<T>): seq<seq<T>>
    requires |q.ready| == PRIORITIES
  {
    var p := Highest(q.ready);
    if p < PRIORITIES then q.ready[p := q.ready[p][1..]] else q.ready
  }

  /** The parts of the state after a switch. */
  lemma SwitchFacts<T>(q: Queues<T>)
    requires |q.ready| == PRIORITIES && Parked(q) && Highest(q.ready) < PRIORITIES
    ensures var r := Dispatch(q); var l := Level(q, q.current);
      && r == q.(current := Next(q), quantum := QUANTUM_TICKS, ready := r.ready, place := r.place)
      && r.ready == (if q.place[q.current] == Running then Popped(q)[l := Popped(q)[l] + [q.current]] else Popped(q))
      && r.place == (if q.place[q.current] == Running
                     then q.place[q.current := Ready(l)][Next(q) := Running] else q.place[Next(q) := Running])
      && Next(q) != q.current && Next(q) in q.place && q.place[Next(q)].Ready? && q.current in q.place
      && r.place.Keys == q.place.Keys
  {
    SwitchLists(q);
    hide Lists;
  }

  lemma LeaveLists<T>(q: Queues<T>, m: Move<T>)
    requires Placed(q) && Legal(q, m) && (m.Wait? || m.Doze? || m.Finish?)
    ensures Lists(Do(q, m))
  {
    var to := match m case Wait(o, _) => Waiting(o) case Doze(_) => Asleep case _ => Terminated;
    hide Holds, Without;
    RelistedLists(q, Do(q, m), q.current, to);
  }

  lemma ArriveLists<T>(q: Queues<T>, m: Move<T>)
    requires Lists(q) && Legal(q, m) && (m.Wake? || m.Rouse? || m.Admit?)
    ensures Lists(Do(q, m))
  {
    match m
    case Wake(o) => if o in q.waiters && q.waiters[o] != [] { WakeLists(q, o); }
    case Rouse(k) => if k < |q.sleepers| { RouseLists(q, k); }
    case Admit(t, p) =>
      hide Holds, Without, Lists;
      RelistedLists(q, Do(q, m), t, Ready(ClampPri(p)));
  }

  lemma WakeLists<T>(q: Queues<T>, o: Obj)
    requires |q.ready| == PRIORITIES && Lists(q) && o in q.waiters && q.waiters[o] != []
    ensures Lists(Do(q, Wake(o)))
  {
    hide Lists, Without;
    var t, r := q.waiters[o][0], Do(q, Wake(o));
    HeadPlace(q, Waiting(o), 0);
    HeadWithout(q.waiters[o]);
    RelistedLists(q, r, t, Ready(Level(q, t)));
  }

  lemma RouseLists<T>(q: Queues<T>, k: nat)
    requires |q.ready| == PRIORITIES && Lists(q) && k < |q.sleepers|
    ensures Lists(Do(q, Rouse(k)))
  {
    assert Without(Do(q, Rouse(k)).sleepers, q.sleepers, q.sleepers[k]);
    hide Lists, Without;
    var t, r := q.sleepers[k], Do(q, Rouse(k));
    HeadPlace(q, Asleep, k);
    RelistedLists(q, r, t, Ready(Level(q, t)));
  }

  /** The thread a waking move takes out of its list. */
  ghost predicate Wakes<T>(q: Queues<T>, m: Move<T>, t: T) {
    || (m.Wake? && m.obj in q.waiters && q.waiters[m.obj] != [] && t == q.waiters[m.obj][0])
    || (m.Rouse? && m.k < |q.sleepers| && t == q.sleepers[m.k])
  }

  lemma WakesPlace<T>(q: Queues<T>, m: Move<T>, t: T)
    requires Lists(q) && Wakes(q, m, t)
    ensures t in q.place && (q.place[t] == if m.Wake? then Waiting(m.obj) else Asleep)
  {
    match m
    case Wake(o) => HeadPlace(q, Waiting(o), 0);
    case Rouse(k) => HeadPlace(q, Asleep, k);
  }

  /** The move makes thread `t` ready. */
  ghost predicate Readies<T>(q: Queues<T>, m: Move<T>, t: T) {
    Wakes(q, m, t) || (m.Admit? && m.t == t && t !in q.place)
  }

  /** The parts of the state after a thread became ready. */
  lemma ArriveFacts<T>(q: Queues<T>, m: Move<T>, t: T)
    requires |q.ready| == PRIORITIES && Parked(q) && Legal(q, m) && Readies(q, m, t)
    ensures var r := Do(q, m); var l := if m.Admit? then ClampPri(m.pri) else Level(q, t);
      && r.ready == q.ready[l := q.ready[l] + [t]] && r.place == q.place[t := Ready(l)]
      && r.pri == (if m.Admit? then q.pri[t := m.pri] else q.pri)
      && r.current == q.current && r.quantum == q.quantum && r.until == q.until
      && r.waiters == (if m.Wake? then q.waiters[m.obj := q.waiters[m.obj][1..]] else q.waiters)
      && r.sleepers == (if m.Rouse? then q.sleepers[..m.k] + q.sleepers[m.k + 1..] else q.sleepers)
    ensures t in q.place ==> !q.place[t].Ready? && t != q.current
    ensures t in q.place <==> !m.Admit?
    ensures Do(q, m).place.Keys == q.place.Keys + {t}
  {
    hide Lists;
    if !m.Admit? { WakesPlace(q, m, t); }
  }

  lemma ArriveParked<T>(q: Queues<T>, m: Move<T>)
    requires |q.ready| == PRIORITIES && Parked(q) && Legal(q, m) && (m.Wake? || m.Rouse? || m.Admit?)
    ensures Parked(Do(q, m))
  {
    hide Lists;
    ArriveLists(q, m);
    if m.Wake? && m.obj in q.waiters && q.waiters[m.obj] != [] { WakesPlace(q, m, q.waiters[m.obj][0]); }
    if m.Rouse? && m.k < |q.sleepers| { WakesPlace(q, m, q.sleepers[m.k]); }
  }

  /** A legal move leaves every thread in exactly one place. */
  lemma MoveParked<T>(q: Queues<T>, m: Move<T>)
    requires |q.ready| == PRIORITIES && Parked(q) && Legal(q, m)
    ensures Parked(Do(q, m))
  {
    hide Lists;
    if m.Switch? {
      SwitchPlaced(q);
    } else if m.Wait? || m.Doze? || m.Finish? {
      LeaveLists(q, m);
    } else if m.Wake? || m.Rouse? || m.Admit? {
      ArriveParked(q, m);
    } else {
      SameLists(q, Do(q, m));
    }
  }

  lemma SameLists<T>(q: Queues<T>, r: Queues<T>)
    requires Lists(q) && r.ready == q.ready && r.sleepers == q.sleepers && r.waiters == q.waiters && r.place == q.place
    ensures Lists(r)
  {
    hide Holds;
    forall at | HasList(r, at) ensures Holds(ListAt(r, at), r.place, at) {
      assert HasList(q, at);
    }
  }
}
