/** The linked structures of the scheduler (kernel/ps/scheduler.cpp): one circular doubly linked
    ready queue with a sentinel for each priority. */
module Threads {

  datatype ThreadState = READY | RUNNING | BLOCKED | TERMINATED

  class KThread {
    var state: ThreadState
    var priority: nat
    var next: KThread?        // ready queue
    var prev: KThread?
    var waitNext: KThread?    // event, semaphore, mutant or process wait list
    var sleepUntil: nat
    var sleepNext: KThread?   // sleep list
    const home: nat           // index of its process

    constructor (process: nat)
      ensures state == READY && priority == 1 && home == process && fresh(this)
      ensures next == null && prev == null && waitNext == null && sleepNext == null && sleepUntil == 0
    {
      state, priority, home := READY, 1, process;
      next, prev, waitNext, sleepNext, sleepUntil := null, null, null, null, 0;
    }
  }

  /** The thread linked after the one at `i`. */
  function After(s: seq<KThread>, i: nat): KThread? { if i + 1 < |s| then s[i + 1] else null }

  ghost predicate Distinct(s: seq<KThread>) { forall i, j | 0 <= i < j < |s| :: s[i] != s[j] }

  function Succ(i: nat, n: nat): nat { if i + 1 < n then i + 1 else 0 }

  /** `c` is a closed ring: each node points to the next one, which points back. */
  ghost predicate Ring(c: seq<KThread>)
    reads c`next, c`prev
  {
    |c| > 0 && forall i | 0 <= i < |c| :: c[i].next == c[Succ(i, |c|)] && c[Succ(i, |c|)].prev == c[i]
  }

  ghost predicate Disjoint(a: seq<KThread>, b: seq<KThread>) { forall x | x in a :: x !in b }

  lemma DistinctTail(sen: KThread, r: seq<KThread>)
    requires Distinct([sen] + r) && r != []
    ensures Distinct([sen] + r[1..])
  {
    var c, d := [sen] + r, [sen] + r[1..];
    assert forall i | 0 <= i < |d| :: d[i] == c[if i == 0 then 0 else i + 1];
  }

  lemma RingAlone(t: KThread)
    requires t.next == t && t.prev == t
    ensures Ring([t] + [])
  {
    assert [t] + [] == [t];
  }

  /** Links `t` in before the sentinel. */
  method RingPushBack(sen: KThread, t: KThread, ghost r: seq<KThread>)
    requires Ring([sen] + r) && Distinct([sen] + r + [t])
    modifies ([sen] + r + [t])`next, ([sen] + r + [t])`prev
    ensures Ring([sen] + r + [t])
  {
    ghost var c, d := [sen] + r, [sen] + r + [t];
    ghost var n := |c|;
    assert d[n] == t && d[0] == sen && forall i | 0 <= i < n :: d[i] == c[i];
    assert c[n - 1].next == c[Succ(n - 1, n)] == sen && sen.prev == d[n - 1];
    var last := sen.prev;
    t.next := sen;
    t.prev := last;
    last.next := t;
    sen.prev := t;
    forall i | 0 <= i < |d| ensures d[i].next == d[Succ(i, |d|)] && d[Succ(i, |d|)].prev == d[i] {
      if i + 1 < n {
        assert old(c[i].next) == c[Succ(i, n)];
      }
    }
  }

  /** The node is linked into a ring, and not as its sentinel. */
  ghost predicate InRing(t: KThread, c: seq<KThread>, k: nat)
    reads c`next, c`prev
  {
    Ring(c) && Distinct(c) && 0 < k < |c| && t == c[k]
  }

  /** Unlinks the node at index `k`; a node that is in no ring is left alone. */
  method RingRemove(t: KThread, ghost c: seq<KThread>, ghost k: nat)
    requires t.next == null || t.prev == null || InRing(t, c, k)
    modifies c`next, c`prev
    ensures old(t.next == null || t.prev == null) ==>
      forall x | x in c :: x.next == old(x.next) && x.prev == old(x.prev)
    ensures old(InRing(t, c, k)) ==> Ring(c[..k] + c[k + 1..]) && t.next == null && t.prev == null
  {
    if t.next == null || t.prev == null {
      RingIsLinked(t, c, k);
      return;
    }
    ghost var n := |c|;
    assert c[k - 1].next == c[Succ(k - 1, n)] && c[k].next == c[Succ(k, n)];
    var p, s := t.prev, t.next;
    assert p == c[k - 1] && s == c[Succ(k, n)];
    p.next := s;
    s.prev := p;
    t.next := null;
    t.prev := null;
    assert forall i | 0 <= i < n && i != k :: c[i].next == if i == k - 1 then s else c[Succ(i, n)];
    assert forall i | 0 <= i < n && Succ(i, n) != k :: c[Succ(i, n)].prev == if i == k then p else c[i];
    RingWithout(c, k);
  }

  lemma RingIsLinked(t: KThread, c: seq<KThread>, k: nat)
    ensures InRing(t, c, k) ==> t.next != null && t.prev != null
  {
    if InRing(t, c, k) {
      assert c[k - 1].next == c[Succ(k - 1, |c|)] && c[Succ(k - 1, |c|)].prev == c[k - 1];
      assert c[k].next == c[Succ(k, |c|)];
    }
  }

  /** A ring whose node `k` is bypassed. */
  lemma RingWithout(c: seq<KThread>, k: nat)
    requires 0 < k < |c|
    requires forall i | 0 <= i < |c| && i != k :: c[i].next == if i == k - 1 then c[Succ(k, |c|)] else c[Succ(i, |c|)]
    requires forall i | 0 <= i < |c| && Succ(i, |c|) != k :: c[Succ(i, |c|)].prev == if i == k then c[k - 1] else c[i]
    ensures Ring(c[..k] + c[k + 1..])
  {
    var n, d := |c|, c[..k] + c[k + 1..];
    forall i | 0 <= i < |d| ensures d[i].next == d[Succ(i, |d|)] && d[Succ(i, |d|)].prev == d[i] {
      var j := if i < k then i else i + 1;
      assert d[i] == c[j];
      if j == k - 1 {
        assert d[Succ(i, |d|)] == c[Succ(k, n)];
      } else {
        assert d[Succ(i, |d|)] == c[Succ(j, n)];
      }
    }
  }

  /** RingPushBack beside two other rings. */
  method RingPushBackApart(sen: KThread, t: KThread, ghost r: seq<KThread>, ghost d: seq<KThread>,
                           ghost e: seq<KThread>)
    requires Ring([sen] + r) && Distinct([sen] + r + [t])
    requires Ring(d) && Disjoint(d, [sen] + r + [t]) && Ring(e) && Disjoint(e, [sen] + r + [t])
    modifies ([sen] + r + [t])`next, ([sen] + r + [t])`prev
    ensures Ring([sen] + r + [t]) && Ring(d) && Ring(e)
  {
    RingPushBack(sen, t, r);
    forall i | 0 <= i < |d| ensures d[i].next == old(d[i].next) && d[i].prev == old(d[i].prev) { assert d[i] in d; }
    forall i | 0 <= i < |e| ensures e[i].next == old(e[i].next) && e[i].prev == old(e[i].prev) { assert e[i] in e; }
  }

  /** RingRemove beside two other rings. */
  method RingRemoveApart(t: KThread, ghost c: seq<KThread>, ghost k: nat, ghost d: seq<KThread>, ghost e: seq<KThread>)
    requires Ring(c) && Distinct(c) && 0 < k < |c| && t == c[k]
    requires Ring(d) && Disjoint(d, c) && Ring(e) && Disjoint(e, c)
    modifies c`next, c`prev
    ensures Ring(c[..k] + c[k + 1..]) && Ring(d) && Ring(e)
    ensures t.next == null && t.prev == null
  {
    RingRemove(t, c, k);
    forall i | 0 <= i < |d| ensures d[i].next == old(d[i].next) && d[i].prev == old(d[i].prev) { assert d[i] in d; }
    forall i | 0 <= i < |e| ensures e[i].next == old(e[i].next) && e[i].prev == old(e[i].prev) { assert e[i] in e; }
  }
}
