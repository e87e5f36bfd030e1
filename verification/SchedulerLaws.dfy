/** Every step of the scheduler machine keeps its invariants. */
module SchedulerLaws {
  import opened Wrappers
  import opened QueueSpec
  import opened QueueLaws
  import opened SchedulerSpec

  // ---- Placement ---------------------------------------------------------------------------

  ghost predicate Leaves<T>(m: Move<T>) { m.Wait? || m.Doze? || m.Finish? }

  /** Every move is legal where it is made, and the main thread does not leave the processor to
      wait, sleep or die. */
  ghost predicate LegalAll<T>(q: Queues<T>, ms: seq<Move<T>>, main: T)
    requires |q.ready| == PRIORITIES
    decreases |ms|
  {
    ms == [] || (Legal(q, ms[0]) && (Leaves(ms[0]) ==> q.current != main) && LegalAll(Do(q, ms[0]), ms[1..], main))
  }

  lemma MoveUp<T>(q: Queues<T>, m: Move<T>, main: T)
    requires |q.ready| == PRIORITIES && Parked(q) && Legal(q, m) && (Leaves(m) ==> q.current != main) && Up(q, main)
    ensures Up(Do(q, m), main)
  {
    hide Lists;
    if m.Switch? && Highest(q.ready) < PRIORITIES { SwitchLists(q); }
    if m.Wake? && m.obj in q.waiters && q.waiters[m.obj] != [] { WakesPlace(q, m, q.waiters[m.obj][0]); }
    if m.Rouse? && m.k < |q.sleepers| { WakesPlace(q, m, q.sleepers[m.k]); }
  }

  lemma {:induction false} LegalAllParked<T>(q: Queues<T>, ms: seq<Move<T>>, main: T)
    requires |q.ready| == PRIORITIES && Parked(q) && Up(q, main) && LegalAll(q, ms, main)
    ensures Parked(DoAll(q, ms)) && Up(DoAll(q, ms), main)
    decreases |ms|
  {
    if ms != [] {
      MoveParked(q, ms[0]);
      MoveUp(q, ms[0], main);
      hide Parked, Up, Legal, Do;
      LegalAllParked(Do(q, ms[0]), ms[1..], main);
    }
  }

  lemma {:induction false} LegalAllAppend<T>(q: Queues<T>, a: seq<Move<T>>, b: seq<Move<T>>, main: T)
    requires |q.ready| == PRIORITIES && LegalAll(q, a, main) && LegalAll(DoAll(q, a), b, main)
    ensures LegalAll(q, a + b, main)
    decreases |a|
  {
    hide Legal, Do;
    if a == [] {
      assert a + b == b;
    } else {
      assert (a + b)[0] == a[0] && (a + b)[1..] == a[1..] + b;
      LegalAllAppend(Do(q, a[0]), a[1..], b, main);
    }
  }

  /** With the main thread up, there is a thread to switch to whenever the current one has left the
      processor. */
  lemma MainIsReady<T>(q: Queues<T>, main: T)
    requires |q.ready| == PRIORITIES && Parked(q) && Up(q, main) && q.place[q.current] != Running
    ensures Highest(q.ready) < PRIORITIES
  {
    var p := q.place[main].pri;
    assert HasList(q, Ready(p)) && main in ListAt(q, Ready(p));
  }

  lemma SwitchesToPlaced<T>(q: Queues<T>, main: T)
    requires |q.ready| == PRIORITIES && Parked(q) && Up(q, main)
    ensures Placed(Dispatch(q)) && Up(Dispatch(q), main)
  {
    if q.place[q.current] != Running { MainIsReady(q, main); }
    SwitchPlaced(q);
    MoveUp(q, Switch, main);
  }

  /** Waking moves leave the current thread where it is. */
  lemma {:induction false} WakeMovesLegal<T>(q: Queues<T>, o: Obj, n: nat, main: T)
    requires |q.ready| == PRIORITIES && Parked(q) && (q.place[q.current] == Running || q.place[q.current] == Terminated)
    ensures LegalAll(q, WakeMoves(o, n), main)
    ensures var r := DoAll(q, WakeMoves(o, n));
      r.current == q.current && r.current in r.place && r.place[r.current] == q.place[q.current]
    decreases n
  {
    hide Lists;
    if n != 0 {
      var ms: seq<Move<T>> := WakeMoves(o, n);
      assert ms[0] == Wake(o) && ms[1..] == WakeMoves(o, n - 1);
      MoveParked(q, Wake(o));
      if o in q.waiters && q.waiters[o] != [] { WakesPlace(q, Wake(o), q.waiters[o][0]); }
      WakeMovesLegal(Do(q, Wake(o)), o, n - 1, main);
    }
  }

  lemma {:induction false} RouseMovesLegal<T>(q: Queues<T>, k: nat, now: nat, main: T)
    requires |q.ready| == PRIORITIES && Placed(q) && k <= |q.sleepers|
    ensures LegalAll(q, RouseMoves(q, k, now), main)
    ensures var r := DoAll(q, RouseMoves(q, k, now));
      r.current == q.current && r.current in r.place && r.place[r.current] == Running
    decreases |q.sleepers| - k
  {
    hide Lists;
    if k < |q.sleepers| {
      if Due(q, q.sleepers[k], now) {
        var ms: seq<Move<T>> := RouseMoves(q, k, now);
        assert ms[0] == Rouse(k) && ms[1..] == RouseMoves(Do(q, Rouse(k)), k, now);
        MoveParked(q, Rouse(k));
        WakesPlace(q, Rouse(k), q.sleepers[k]);
        RouseMovesLegal(Do(q, Rouse(k)), k, now, main);
      } else {
        RouseMovesLegal(q, k + 1, now, main);
      }
    }
  }

  /** The effects the placement laws speak of: a blocking effect names a wait list, is not the main
      thread's, and a new thread is new. */
  ghost predicate Fit<T>(q: Queues<T>, e: Effect<T>, main: T) {
    && (e.Block? || e.Die? || e.Nap? ==> q.current != main)
    && (e.Block? ==> e.o in q.waiters)
    && (e.Enter? ==> e.t !in q.place)
  }

  /** The moves of a call up to its switch, if it ends in one. */
  ghost function BeforeSwitch<T>(q: Queues<T>, now: nat, e: Effect<T>): seq<Move<T>>
    requires |q.ready| == PRIORITIES
  {
    match e
    case Block(o, front) => [Wait(o, front)]
    case Die(o, n) => [Finish] + WakeMoves(o, n)
    case Nap(u) => [Doze(u)]
    case Advance => RouseMoves(q, 0, now + 1) + (if q.quantum == 0 then [] else [Burn])
    case Give => []
    case _ => Moves(q, now, e)
  }

  ghost predicate EndsInSwitch<T>(q: Queues<T>, e: Effect<T>) {
    e.Block? || e.Die? || e.Nap? || e.Give? || (e.Advance? && q.quantum == 1)
  }

  lemma SplitAtSwitch<T>(q: Queues<T>, now: nat, e: Effect<T>)
    requires |q.ready| == PRIORITIES
    ensures Moves(q, now, e) == BeforeSwitch(q, now, e) + (if EndsInSwitch(q, e) then [Switch] else [])
  {
    if e.Die? {
      assert [Finish] + (WakeMoves<T>(e.o, e.n) + [Switch]) == ([Finish] + WakeMoves(e.o, e.n)) + [Switch];
    }
  }

  /** Up to its switch, a call makes legal moves; it ends with the current thread still running, or
      in a switch. */
  lemma BeforeSwitchLegal<T>(q: Queues<T>, now: nat, e: Effect<T>, main: T)
    requires |q.ready| == PRIORITIES && Placed(q) && Fit(q, e, main)
    ensures LegalAll(q, BeforeSwitch(q, now, e), main)
    ensures var r := DoAll(q, BeforeSwitch(q, now, e));
      EndsInSwitch(q, e) || (r.current == q.current && r.current in r.place && r.place[r.current] == Running)
  {
    hide Lists;
    match e
    case Grant(o, n) => WakeMovesLegal(q, o, n, main);
    case Die(o, n) =>
      MoveParked(q, Finish);
      WakeMovesLegal(Do(q, Finish), o, n, main);
      assert ([Finish] + WakeMoves<T>(o, n))[1..] == WakeMoves(o, n);
    case Advance => AdvanceLegal(q, now, main);
    case _ =>
  }

  lemma AdvanceLegal<T>(q: Queues<T>, now: nat, main: T)
    requires |q.ready| == PRIORITIES && Placed(q)
    ensures LegalAll(q, BeforeSwitch(q, now, Advance), main)
    ensures var r := DoAll(q, BeforeSwitch(q, now, Advance));
      r.current == q.current && r.current in r.place && r.place[r.current] == Running
  {
    hide Lists;
    RouseMovesLegal(q, 0, now + 1, main);
    var rouse := RouseMoves(q, 0, now + 1);
    if q.quantum != 0 {
      assert LegalAll(DoAll(q, rouse), [Burn], main);
      LegalAllAppend(q, rouse, [Burn], main);
      DoAllAppend(q, rouse, [Burn]);
    } else {
      assert rouse + [] == rouse;
    }
  }

  /** Every call leaves each thread in exactly one place and the main thread up. */
  lemma EffectPlaced<T>(q: Queues<T>, now: nat, e: Effect<T>, main: T)
    requires |q.ready| == PRIORITIES && Placed(q) && Up(q, main) && Fit(q, e, main)
    ensures LegalAll(q, Moves(q, now, e), main)
    ensures Placed(DoAll(q, Moves(q, now, e))) && Up(DoAll(q, Moves(q, now, e)), main)
  {
    hide Lists, Moves, BeforeSwitch, Up, Fit;
    var before := BeforeSwitch(q, now, e);
    SplitAtSwitch(q, now, e);
    BeforeSwitchLegal(q, now, e, main);
    LegalAllParked(q, before, main);
    var r := DoAll(q, before);
    if EndsInSwitch(q, e) {
      assert LegalAll(r, [Switch], main);
      LegalAllAppend(q, before, [Switch], main);
      DoAllAppend(q, before, [Switch]);
      SwitchesToPlaced(r, main);
      OneMove(r, Switch);
    } else {
      assert before + [] == before;
    }
  }

  /** A thread that blocks leaves the machine placed exactly when another thread is ready. */
  lemma BlockingNeedsAReadyThread<T>(q: Queues<T>, now: nat, e: Effect<T>)
    requires |q.ready| == PRIORITIES && Placed(q)
    requires (e.Block? && e.o in q.waiters) || e.Nap?
    ensures Placed(DoAll(q, Moves(q, now, e))) <==> Highest(q.ready) < PRIORITIES
  {
    hide Lists;
    var m := if e.Block? then Wait(e.o, e.front) else Doze(e.until);
    MoveParked(q, m);
    SwitchPlaced(Do(q, m));
    ThenSwitch(q, m);
  }

  // ---- What a call does to the lists ---------------------------------------------------------------

  lemma SwitchFrame<T>(q: Queues<T>)
    requires |q.ready| == PRIORITIES
    ensures var r := Dispatch(q);
      r.waiters == q.waiters && r.sleepers == q.sleepers && r.until == q.until && r.pri == q.pri
  {}

  /** The waiters of an object after a call. */
  ghost function WaitersAfter<T>(q: Queues<T>, e: Effect<T>, o: Obj): seq<T> {
    var w := WaitersOf(q, o);
    match e
    case Block(b, front) => if b != o then w else if front then [q.current] + w else w + [q.current]
    case Grant(g, n) => if g == o && n <= |w| then w[n..] else w
    case Die(g, n) => if g == o && n <= |w| then w[n..] else w
    case _ => w
  }

  /** The effect names a wait list, and wakes no more threads than wait in it. */
  ghost predicate InRange<T>(q: Queues<T>, e: Effect<T>) {
    && (e.Block? ==> e.o in q.waiters)
    && (e.Grant? || e.Die? ==> e.o in q.waiters && e.n <= |q.waiters[e.o]|)
  }

  /** The sleep list after a call. */
  ghost function SleepersAfter<T>(q: Queues<T>, now: nat, e: Effect<T>): seq<T> {
    match e
    case Nap(_) => [q.current] + q.sleepers
    case Advance => Select(q, q.sleepers, now + 1, false)
    case _ => q.sleepers
  }

  ghost predicate ListsAfter<T>(q: Queues<T>, now: nat, e: Effect<T>, r: Queues<T>) {
    && r.waiters.Keys == q.waiters.Keys
    && (forall o | o in q.waiters :: r.waiters[o] == WaitersAfter(q, e, o))
    && r.sleepers == SleepersAfter(q, now, e)
    && r.until == (if e.Nap? then q.until[q.current := e.until] else q.until)
  }

  lemma WakeMovesLists<T>(q: Queues<T>, o: Obj, n: nat)
    requires |q.ready| == PRIORITIES && o in q.waiters && n <= |q.waiters[o]|
    ensures var r := DoAll(q, WakeMoves(o, n));
      && r.waiters == q.waiters[o := q.waiters[o][n..]] && r.sleepers == q.sleepers && r.until == q.until
  {
    WakeMovesExact(q, o, n);
    PushAllPlaces(q.(waiters := q.waiters[o := q.waiters[o][n..]]), q.waiters[o][..n]);
  }

  lemma RouseMovesLists<T>(q: Queues<T>, now: nat)
    requires |q.ready| == PRIORITIES
    ensures var r := DoAll(q, RouseMoves(q, 0, now));
      && r.waiters == q.waiters && r.sleepers == Select(q, q.sleepers, now, false) && r.until == q.until
  {
    RouseMovesExact(q, 0, now);
    assert q.sleepers[0..] == q.sleepers && q.sleepers[..0] == [];
    assert q.sleepers[..0] + Select(q, q.sleepers, now, false) == Select(q, q.sleepers, now, false);
    PushAllPlaces(q.(sleepers := Select(q, q.sleepers, now, false)), Select(q, q.sleepers, now, true));
  }

  lemma DieLists<T>(q: Queues<T>, now: nat, o: Obj, n: nat)
    requires |q.ready| == PRIORITIES && InRange(q, Die(o, n))
    ensures ListsAfter(q, now, Die(o, n), DoAll(q, BeforeSwitch(q, now, Die(o, n))))
  {
    WakeMovesLists(Do(q, Finish), o, n);
    var ms: seq<Move<T>> := [Finish] + WakeMoves(o, n);
    assert ms[0] == Finish && ms[1..] == WakeMoves(o, n);
    assert BeforeSwitch(q, now, Die(o, n)) == ms && DoAll(q, ms) == DoAll(Do(q, Finish), ms[1..]);
  }

  lemma AdvanceLists<T>(q: Queues<T>, now: nat)
    requires |q.ready| == PRIORITIES
    ensures ListsAfter(q, now, Advance, DoAll(q, BeforeSwitch(q, now, Advance)))
  {
    RouseMovesLists(q, now + 1);
    var rouse: seq<Move<T>> := RouseMoves(q, 0, now + 1);
    if q.quantum != 0 {
      DoAllAppend(q, rouse, [Burn]);
      OneMove(DoAll(q, rouse), Burn);
    } else {
      assert rouse + [] == rouse;
    }
  }

  lemma BlockLists<T>(q: Queues<T>, now: nat, o: Obj, front: bool)
    requires |q.ready| == PRIORITIES && o in q.waiters
    ensures ListsAfter(q, now, Block(o, front), DoAll(q, [Wait(o, front)]))
  {
    hide DoAll;
    OneMove(q, Wait(o, front));
  }

  lemma NapLists<T>(q: Queues<T>, now: nat, u: nat)
    requires |q.ready| == PRIORITIES
    ensures ListsAfter(q, now, Nap(u), DoAll(q, [Doze(u)]))
  {
    hide DoAll;
    OneMove(q, Doze(u));
  }

  lemma EnterLists<T>(q: Queues<T>, now: nat, t: T)
    requires |q.ready| == PRIORITIES
    ensures ListsAfter(q, now, Enter(t), DoAll(q, [Admit(t, NORMAL)]))
  {
    hide DoAll, Level;
    OneMove(q, Admit(t, NORMAL));
  }

  lemma RankLists<T>(q: Queues<T>, now: nat, l: nat)
    requires |q.ready| == PRIORITIES
    ensures ListsAfter(q, now, Rank(l), DoAll(q, [Reprioritize(l)]))
  {
    hide DoAll;
    OneMove(q, Reprioritize(l));
  }

  lemma StayLists<T>(q: Queues<T>, now: nat, e: Effect<T>)
    requires |q.ready| == PRIORITIES && (e.NoEffect? || e.Give?)
    ensures ListsAfter(q, now, e, DoAll(q, []))
  {}

  lemma BeforeSwitchLists<T>(q: Queues<T>, now: nat, e: Effect<T>)
    requires |q.ready| == PRIORITIES && InRange(q, e)
    ensures ListsAfter(q, now, e, DoAll(q, BeforeSwitch(q, now, e)))
  {
    hide DoAll, ListsAfter, WakeMoves, RouseMoves;
    match e {
      case Block(o, front) => BlockLists(q, now, o, front);
      case Grant(o, n) => GrantLists(q, now, o, n);
      case Die(o, n) => DieLists(q, now, o, n);
      case Nap(u) => NapLists(q, now, u);
      case Advance => AdvanceLists(q, now);
      case Enter(t) => EnterLists(q, now, t);
      case Rank(l) => RankLists(q, now, l);
      case _ => StayLists(q, now, e);
    }
  }

  lemma GrantLists<T>(q: Queues<T>, now: nat, o: Obj, n: nat)
    requires |q.ready| == PRIORITIES && o in q.waiters && n <= |q.waiters[o]|
    ensures ListsAfter(q, now, Grant(o, n), DoAll(q, WakeMoves(o, n)))
  {
    hide DoAll, WakeMoves;
    WakeMovesLists(q, o, n);
  }

  /** The wait lists and the sleep list after a call. */
  lemma EffectLists<T>(q: Queues<T>, now: nat, e: Effect<T>)
    requires |q.ready| == PRIORITIES && InRange(q, e)
    ensures ListsAfter(q, now, e, DoAll(q, Moves(q, now, e)))
  {
    var before := BeforeSwitch(q, now, e);
    SplitAtSwitch(q, now, e);
    BeforeSwitchLists(q, now, e);
    hide Moves, BeforeSwitch, WaitersAfter, SleepersAfter;
    if EndsInSwitch(q, e) {
      DoAllAppend(q, before, [Switch]);
      SwitchFrame(DoAll(q, before));
      OneMove(DoAll(q, before), Switch);
    } else {
      assert before + [] == before;
    }
  }

  // ---- Who lives ------------------------------------------------------------------------------------

  ghost predicate Alive<T>(q: Queues<T>, t: T) { t in q.place && q.place[t] != Terminated }

  ghost predicate SameLiving<T>(q: Queues<T>, r: Queues<T>) {
    r.place.Keys == q.place.Keys && forall t | t in q.place :: Alive(r, t) <==> Alive(q, t)
  }

  lemma MoveLiving<T>(q: Queues<T>, m: Move<T>)
    requires |q.ready| == PRIORITIES && Parked(q) && Legal(q, m) && !m.Finish? && !m.Admit?
    ensures SameLiving(q, Do(q, m))
  {
    hide Lists;
    if m.Switch? && Highest(q.ready) < PRIORITIES { SwitchLists(q); }
    if m.Wake? && m.obj in q.waiters && q.waiters[m.obj] != [] { WakesPlace(q, m, q.waiters[m.obj][0]); }
    if m.Rouse? && m.k < |q.sleepers| { WakesPlace(q, m, q.sleepers[m.k]); }
  }

  ghost predicate NobodyComesOrGoes<T>(ms: seq<Move<T>>) {
    forall i | 0 <= i < |ms| :: !ms[i].Finish? && !ms[i].Admit?
  }

  lemma {:induction false} LegalAllLiving<T>(q: Queues<T>, ms: seq<Move<T>>, main: T)
    requires |q.ready| == PRIORITIES && Parked(q) && LegalAll(q, ms, main) && NobodyComesOrGoes(ms)
    ensures SameLiving(q, DoAll(q, ms))
    decreases |ms|
  {
    hide Parked, Legal, Do, Alive;
    if ms != [] {
      MoveParked(q, ms[0]);
      MoveLiving(q, ms[0]);
      LegalAllLiving(Do(q, ms[0]), ms[1..], main);
    }
  }

  lemma {:induction false} WakeMovesOnlyWake<T>(o: Obj, n: nat)
    ensures forall i | 0 <= i < |WakeMoves<T>(o, n)| :: WakeMoves<T>(o, n)[i] == Wake(o)
    decreases n
  {
    if n != 0 { WakeMovesOnlyWake<T>(o, n - 1); }
  }

  lemma {:induction false} RouseMovesOnlyRouse<T>(q: Queues<T>, k: nat, now: nat)
    requires |q.ready| == PRIORITIES && k <= |q.sleepers|
    ensures forall i | 0 <= i < |RouseMoves(q, k, now)| :: RouseMoves(q, k, now)[i].Rouse?
    decreases |q.sleepers| - k
  {
    if k < |q.sleepers| {
      if Due(q, q.sleepers[k], now) { RouseMovesOnlyRouse(Do(q, Rouse(k)), k, now); } else {
        RouseMovesOnlyRouse(q, k + 1, now);
      }
    }
  }

  /** What a call does to the set of living threads: only an exit ends a thread, and only a creation
      adds one. */
  ghost predicate LivingAfter<T>(q: Queues<T>, e: Effect<T>, r: Queues<T>) {
    && r.place.Keys == q.place.Keys + (if e.Enter? then {e.t} else {})
    && (forall t | t in r.place ::
          Alive(r, t) <==> (Alive(q, t) && !(e.Die? && t == q.current)) || (e.Enter? && t == e.t))
  }

  lemma FinishLiving<T>(q: Queues<T>, e: Effect<T>)
    requires |q.ready| == PRIORITIES && q.current in q.place && e.Die?
    ensures LivingAfter(q, e, Do(q, Finish))
  {}

  lemma EnterLiving<T>(q: Queues<T>, now: nat, e: Effect<T>)
    requires |q.ready| == PRIORITIES && e.Enter? && e.t !in q.place
    ensures LivingAfter(q, e, DoAll(q, Moves(q, now, e)))
  {
    OneMove(q, Admit(e.t, NORMAL));
  }

  lemma LivingAfterSame<T>(q: Queues<T>, e: Effect<T>, r: Queues<T>, r': Queues<T>)
    requires LivingAfter(q, e, r) && SameLiving(r, r')
    ensures LivingAfter(q, e, r')
  {
    hide Alive;
  }

  lemma DieLiving<T>(q: Queues<T>, now: nat, e: Effect<T>, main: T)
    requires |q.ready| == PRIORITIES && Placed(q) && Up(q, main) && Fit(q, e, main) && e.Die?
    ensures LivingAfter(q, e, DoAll(q, Moves(q, now, e)))
  {
    hide Lists, Up, LivingAfter, SameLiving;
    EffectPlaced(q, now, e, main);
    MoveParked(q, Finish);
    WakeMovesOnlyWake<T>(e.o, e.n);
    var ms: seq<Move<T>> := Moves(q, now, e);
    assert ms[0] == Finish && ms[1..] == WakeMoves(e.o, e.n) + [Switch];
    FinishLiving(q, e);
    hide Parked, Alive, Do;
    LegalAllLiving(Do(q, Finish), ms[1..], main);
    LivingAfterSame(q, e, Do(q, Finish), DoAll(q, ms));
  }

  lemma MovesOnlyMove<T>(q: Queues<T>, now: nat, e: Effect<T>)
    requires |q.ready| == PRIORITIES && !e.Die? && !e.Enter?
    ensures NobodyComesOrGoes(Moves(q, now, e))
  {
    if e.Grant? { WakeMovesOnlyWake<T>(e.o, e.n); }
    if e.Advance? { RouseMovesOnlyRouse(q, 0, now + 1); }
  }

  lemma EffectLiving<T>(q: Queues<T>, now: nat, e: Effect<T>, main: T)
    requires |q.ready| == PRIORITIES && Placed(q) && Up(q, main) && Fit(q, e, main)
    ensures LivingAfter(q, e, DoAll(q, Moves(q, now, e)))
  {
    hide Moves, Lists, Up, Alive;
    if e.Die? {
      DieLiving(q, now, e, main);
    } else if e.Enter? {
      EnterLiving(q, now, e);
    } else {
      EffectPlaced(q, now, e, main);
      MovesOnlyMove(q, now, e);
      LegalAllLiving(q, Moves(q, now, e), main);
    }
  }
}
