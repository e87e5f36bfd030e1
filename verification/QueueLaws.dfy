/** Laws of the moves on the scheduler's queues: wait lists that are joined at the back are served
    in order, a ready thread gets the processor after a known number of switches, a tick wakes
    exactly the sleepers that are due. */
module QueueLaws {
  import opened QueueSpec

  lemma OneMove<T>(q: Queues<T>, m: Move<T>)
    requires |q.ready| == PRIORITIES
    ensures DoAll(q, [m]) == Do(q, m)
  {
    var ms: seq<Move<T>> := [m];
    var rest := ms[1..];
    assert ms[0] == m && rest == [];
    assert DoAll(Do(q, m), rest) == Do(q, m);
  }

  /** A move and a switch. */
  lemma ThenSwitch<T>(q: Queues<T>, m: Move<T>)
    requires |q.ready| == PRIORITIES
    ensures DoAll(q, [m, Switch]) == Dispatch(Do(q, m))
  {
    OneMove(q, m);
    OneMove(Do(q, m), Switch);
    DoAllAppend(q, [m], [Switch]);
    assert [m] + [Switch] == [m, Switch];
  }

  // ---- First come, first served ------------------------------------------------------------

  ghost function WokenBy<T>(q: Queues<T>, m: Move<T>, o: Obj): seq<T> {
    if m == Wake(o) && o in q.waiters && q.waiters[o] != [] then [q.waiters[o][0]] else []
  }

  ghost function JoinedBy<T>(q: Queues<T>, m: Move<T>, o: Obj): seq<T> {
    if m.Wait? && m.obj == o && o in q.waiters then [q.current] else []
  }

  /** The threads woken from an object's wait list, in order. */
  ghost function Woken<T>(q: Queues<T>, ms: seq<Move<T>>, o: Obj): seq<T>
    requires |q.ready| == PRIORITIES
    decreases |ms|
  {
    if ms == [] then [] else WokenBy(q, ms[0], o) + Woken(Do(q, ms[0]), ms[1..], o)
  }

  /** The threads that joined an object's wait list, in order. */
  ghost function Joined<T>(q: Queues<T>, ms: seq<Move<T>>, o: Obj): seq<T>
    requires |q.ready| == PRIORITIES
    decreases |ms|
  {
    if ms == [] then [] else JoinedBy(q, ms[0], o) + Joined(Do(q, ms[0]), ms[1..], o)
  }

  ghost predicate AtTheBack<T>(ms: seq<Move<T>>, o: Obj) {
    forall i | 0 <= i < |ms| && ms[i].Wait? && ms[i].obj == o :: !ms[i].front
  }

  lemma MoveServesInOrder<T>(q: Queues<T>, m: Move<T>, o: Obj)
    requires |q.ready| == PRIORITIES && o in q.waiters && !(m.Wait? && m.obj == o && m.front)
    ensures o in Do(q, m).waiters
    ensures WokenBy(q, m, o) + Do(q, m).waiters[o] == q.waiters[o] + JoinedBy(q, m, o)
  {}

  /** Threads leave a wait list in the order in which they joined it. */
  lemma {:induction false} FirstComeFirstServed<T>(q: Queues<T>, ms: seq<Move<T>>, o: Obj)
    requires |q.ready| == PRIORITIES && o in q.waiters && AtTheBack(ms, o)
    ensures o in DoAll(q, ms).waiters
    ensures Woken(q, ms, o) + DoAll(q, ms).waiters[o] == q.waiters[o] + Joined(q, ms, o)
    decreases |ms|
  {
    hide Do, WokenBy, JoinedBy;
    if ms != [] {
      var r := Do(q, ms[0]);
      MoveServesInOrder(q, ms[0], o);
      FirstComeFirstServed(r, ms[1..], o);
      var w, j, end := Woken(r, ms[1..], o), Joined(r, ms[1..], o), DoAll(q, ms).waiters[o];
      var w0, j0 := WokenBy(q, ms[0], o), JoinedBy(q, ms[0], o);
      assert (w0 + w) + end == w0 + (r.waiters[o] + j);
      assert (w0 + r.waiters[o]) + j == q.waiters[o] + (j0 + j);
    }
  }

  // ---- Bounded waiting -----------------------------------------------------------------------

  ghost predicate EmptyAbove<T>(q: Queues<T>, p: nat)
    requires |q.ready| == PRIORITIES
  {
    forall k | p < k < PRIORITIES :: q.ready[k] == []
  }

  /** Before and after every move, the queues above priority `p` are empty. */
  ghost predicate QuietAbove<T>(q: Queues<T>, ms: seq<Move<T>>, p: nat)
    requires |q.ready| == PRIORITIES
    decreases |ms|
  {
    EmptyAbove(q, p) && (ms == [] || QuietAbove(Do(q, ms[0]), ms[1..], p))
  }

  ghost function Switches<T>(ms: seq<Move<T>>): nat {
    if ms == [] then 0 else (if ms[0].Switch? then 1 else 0) + Switches(ms[1..])
  }

  lemma MoveKeepsIndex<T>(q: Queues<T>, m: Move<T>, p: nat, k: nat)
    requires |q.ready| == PRIORITIES && p < PRIORITIES && k < |q.ready[p]| && !m.Switch?
    ensures k < |Do(q, m).ready[p]| && Do(q, m).ready[p][k] == q.ready[p][k]
  {}

  lemma SwitchAdvances<T>(q: Queues<T>, p: nat, k: nat)
    requires |q.ready| == PRIORITIES && p < PRIORITIES && k < |q.ready[p]| && EmptyAbove(q, p)
    ensures var r := Dispatch(q);
      if k == 0 then r.current == q.ready[p][0]
      else k - 1 < |r.ready[p]| && r.ready[p][k - 1] == q.ready[p][k]
  {
    assert Highest(q.ready) == p;
  }

  /** While higher queues stay empty, a thread at index `k` of its queue moves up by one place with
      each switch and by none otherwise, whatever arrives in the meantime. */
  lemma {:induction false} WaitingMovesUp<T>(q: Queues<T>, ms: seq<Move<T>>, p: nat, k: nat)
    requires |q.ready| == PRIORITIES && p < PRIORITIES && k < |q.ready[p]|
    requires QuietAbove(q, ms, p) && Switches(ms) <= k
    ensures var r := DoAll(q, ms);
      k - Switches(ms) < |r.ready[p]| && r.ready[p][k - Switches(ms)] == q.ready[p][k] && EmptyAbove(r, p)
    decreases |ms|
  {
    if ms != [] {
      if ms[0].Switch? {
        SwitchAdvances(q, p, k);
        WaitingMovesUp(Do(q, ms[0]), ms[1..], p, k - 1);
      } else {
        MoveKeepsIndex(q, ms[0], p, k);
        WaitingMovesUp(Do(q, ms[0]), ms[1..], p, k);
      }
    }
  }

  lemma {:induction false} QuietPrefix<T>(q: Queues<T>, ms: seq<Move<T>>, m: Move<T>, p: nat)
    requires |q.ready| == PRIORITIES && QuietAbove(q, ms + [m], p)
    ensures QuietAbove(q, ms, p) && Switches(ms + [m]) == Switches(ms) + (if m.Switch? then 1 else 0)
    decreases |ms|
  {
    if ms == [] {
      assert ms + [m] == [m] && [m][1..] == [];
    } else {
      assert (ms + [m])[0] == ms[0] && (ms + [m])[1..] == ms[1..] + [m];
      QuietPrefix(Do(q, ms[0]), ms[1..], m, p);
    }
  }

  /** A thread at index `k` of its ready queue gets the processor with the switch number `k + 1`. */
  lemma RunsAfterExactlyItsTurn<T>(q: Queues<T>, ms: seq<Move<T>>, p: nat, k: nat)
    requires |q.ready| == PRIORITIES && p < PRIORITIES && k < |q.ready[p]|
    requires QuietAbove(q, ms + [Switch], p) && Switches(ms) == k
    ensures DoAll(q, ms + [Switch]).current == q.ready[p][k]
    ensures Switches(ms + [Switch]) == k + 1
  {
    QuietPrefix(q, ms, Switch, p);
    WaitingMovesUp(q, ms, p, k);
    SwitchAdvances(DoAll(q, ms), p, 0);
    DoAllAppend(q, ms, [Switch]);
    OneMove(DoAll(q, ms), Switch);
  }

  // ---- Waking several threads -------------------------------------------------------------------

  ghost function PushAll<T>(q: Queues<T>, ts: seq<T>): (r: Queues<T>)
    requires |q.ready| == PRIORITIES
    ensures |r.ready| == PRIORITIES
    decreases |ts|
  {
    if ts == [] then q else PushAll(Push(q, ts[0]), ts[1..])
  }

  /** The threads of a list that belong to ready queue `p`, in order. */
  ghost function OfLevel<T>(q: Queues<T>, ts: seq<T>, p: nat): seq<T> {
    if ts == [] then [] else (if Level(q, ts[0]) == p then [ts[0]] else []) + OfLevel(q, ts[1..], p)
  }

  lemma {:induction false} OfLevelSame<T>(q: Queues<T>, r: Queues<T>, ts: seq<T>, p: nat)
    requires q.pri == r.pri
    ensures OfLevel(q, ts, p) == OfLevel(r, ts, p)
    decreases |ts|
  {
    if ts != [] { OfLevelSame(q, r, ts[1..], p); }
  }

  lemma PushExact<T>(q: Queues<T>, t: T)
    requires |q.ready| == PRIORITIES
    ensures var r := Push(q, t);
      && (forall p: nat | p < PRIORITIES :: r.ready[p] == q.ready[p] + if Level(q, t) == p then [t] else [])
      && r.place == q.place[t := Ready(Level(q, t))]
      && r == q.(ready := r.ready, place := r.place)
  {}

  /** Each pushed thread goes to the back of the queue of its priority, in order. */
  lemma {:induction false} PushAllReady<T>(q: Queues<T>, ts: seq<T>, p: nat)
    requires |q.ready| == PRIORITIES && p < PRIORITIES
    ensures PushAll(q, ts).ready[p] == q.ready[p] + OfLevel(q, ts, p)
    decreases |ts|
  {
    hide Push;
    if ts == [] {
      assert q.ready[p] + [] == q.ready[p];
    } else {
      var q1 := Push(q, ts[0]);
      PushExact(q, ts[0]);
      PushAllReady(q1, ts[1..], p);
      OfLevelSame(q, q1, ts[1..], p);
      var first := if Level(q, ts[0]) == p then [ts[0]] else [];
      assert (q.ready[p] + first) + OfLevel(q, ts[1..], p) == q.ready[p] + (first + OfLevel(q, ts[1..], p));
    }
  }

  /** Pushing threads places them in their queues and changes nothing else. */
  lemma {:induction false} PushAllPlaces<T>(q: Queues<T>, ts: seq<T>)
    requires |q.ready| == PRIORITIES
    ensures var r := PushAll(q, ts);
      && (forall t :: t in r.place <==> t in q.place || t in ts)
      && (forall t | t in r.place :: r.place[t] == if t in ts then Ready(Level(q, t)) else q.place[t])
      && r == q.(ready := r.ready, place := r.place)
    decreases |ts|
  {
    hide Push;
    if ts != [] {
      PushExact(q, ts[0]);
      PushAllPlaces(Push(q, ts[0]), ts[1..]);
      assert forall t :: Level(Push(q, ts[0]), t) == Level(q, t);
      assert forall t :: t in ts <==> t == ts[0] || t in ts[1..];
    }
  }

  ghost function WakeMoves<T>(o: Obj, n: nat): seq<Move<T>> {
    if n == 0 then [] else [Wake(o)] + WakeMoves(o, n - 1)
  }

  /** `n` wake-ups take the first `n` waiters, in order. */
  lemma {:induction false} WakeMovesExact<T>(q: Queues<T>, o: Obj, n: nat)
    requires |q.ready| == PRIORITIES && o in q.waiters && n <= |q.waiters[o]|
    ensures DoAll(q, WakeMoves(o, n)) == PushAll(q.(waiters := q.waiters[o := q.waiters[o][n..]]), q.waiters[o][..n])
    decreases n
  {
    var w := q.waiters[o];
    if n == 0 {
      assert w[0..] == w && w[..0] == [];
      assert q.waiters[o := w] == q.waiters;
    } else {
      var r := Do(q, Wake(o));
      var ms: seq<Move<T>> := WakeMoves(o, n);
      assert ms[0] == Wake(o) && ms[1..] == WakeMoves(o, n - 1);
      assert DoAll(q, ms) == DoAll(r, WakeMoves(o, n - 1));
      WakeMovesExact(r, o, n - 1);
      assert w[1..][n - 1..] == w[n..] && w[1..][..n - 1] == w[..n][1..] && w[..n][0] == w[0];
      assert r.waiters[o := w[n..]] == q.waiters[o := w[n..]];
      assert r.(waiters := r.waiters[o := w[n..]]) == Push(q.(waiters := q.waiters[o := w[n..]]), w[0]);
    }
  }

  // ---- Waking the sleepers that are due -------------------------------------------------------------

  ghost predicate Due<T>(q: Queues<T>, t: T, now: nat) { t in q.until && q.until[t] <= now }

  /** WakeSleepers: one pass over the sleep list, unlinking the threads that are due. */
  ghost function RouseMoves<T>(q: Queues<T>, k: nat, now: nat): seq<Move<T>>
    requires |q.ready| == PRIORITIES && k <= |q.sleepers|
    decreases |q.sleepers| - k
  {
    if k == |q.sleepers| then [] else
    if Due(q, q.sleepers[k], now) then [Rouse(k)] + RouseMoves(Do(q, Rouse(k)), k, now)
    else RouseMoves(q, k + 1, now)
  }

  /** The threads of a list that are due, or not, in order. */
  ghost function Select<T>(q: Queues<T>, ts: seq<T>, now: nat, due: bool): seq<T> {
    if ts == [] then [] else
    (if Due(q, ts[0], now) == due then [ts[0]] else []) + Select(q, ts[1..], now, due)
  }

  lemma {:induction false} SelectSame<T>(q: Queues<T>, r: Queues<T>, ts: seq<T>, now: nat, due: bool)
    requires q.until == r.until
    ensures Select(q, ts, now, due) == Select(r, ts, now, due)
    decreases |ts|
  {
    if ts != [] { SelectSame(q, r, ts[1..], now, due); }
  }

  lemma {:induction false} SelectMembers<T>(q: Queues<T>, ts: seq<T>, now: nat, due: bool, t: T)
    ensures t in Select(q, ts, now, due) <==> t in ts && Due(q, t, now) == due
    decreases |ts|
  {
    if ts != [] { SelectMembers(q, ts[1..], now, due, t); }
  }

  /** The pass unlinks exactly the threads that are due, keeps the others in order, and makes each
      unlinked thread ready once, in list order. */
  lemma {:induction false} RouseMovesExact<T>(q: Queues<T>, k: nat, now: nat)
    requires |q.ready| == PRIORITIES && k <= |q.sleepers|
    ensures DoAll(q, RouseMoves(q, k, now))
      == PushAll(q.(sleepers := q.sleepers[..k] + Select(q, q.sleepers[k..], now, false)),
                 Select(q, q.sleepers[k..], now, true))
    decreases |q.sleepers| - k
  {
    var s := q.sleepers;
    if k == |s| {
      assert s[k..] == [] && s[..k] + [] == s;
    } else {
      assert s[k..][0] == s[k] && s[k..][1..] == s[k + 1..];
      var rest, out := Select(q, s[k + 1..], now, false), Select(q, s[k + 1..], now, true);
      if Due(q, s[k], now) {
        RouseStep(q, k, now);
      } else {
        RouseMovesExact(q, k + 1, now);
        assert (s[..k] + [s[k]]) + rest == s[..k] + ([s[k]] + rest);
        assert s[..k + 1] == s[..k] + [s[k]];
        assert [] + out == out;
      }
    }
  }

  lemma {:induction false} RouseStep<T>(q: Queues<T>, k: nat, now: nat)
    requires |q.ready| == PRIORITIES && k < |q.sleepers| && Due(q, q.sleepers[k], now)
    ensures DoAll(q, RouseMoves(q, k, now))
      == PushAll(q.(sleepers := q.sleepers[..k] + Select(q, q.sleepers[k..], now, false)),
                 Select(q, q.sleepers[k..], now, true))
    decreases |q.sleepers| - k, 0
  {
    var s := q.sleepers;
    assert s[k..][0] == s[k] && s[k..][1..] == s[k + 1..];
    var rest, out := Select(q, s[k + 1..], now, false), Select(q, s[k + 1..], now, true);
    var r := Do(q, Rouse(k));
    RouseMovesExact(r, k, now);
    assert r.sleepers[..k] == s[..k] && r.sleepers[k..] == s[k + 1..];
    SelectSame(q, r, s[k + 1..], now, false);
    SelectSame(q, r, s[k + 1..], now, true);
    assert [] + rest == rest;
    var ms := RouseMoves(q, k, now);
    assert ms[0] == Rouse(k) && ms[1..] == RouseMoves(r, k, now);
    assert r.(sleepers := s[..k] + rest) == Push(q.(sleepers := s[..k] + rest), s[k]);
    assert ([s[k]] + out)[1..] == out;
  }
}
