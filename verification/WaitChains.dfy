/** The wait lists of the blocking objects, all linked through `waitNext`. */
module WaitChains {
  import opened Threads
  import opened QueueSpec

  ghost predicate WaitChain(head: KThread?, s: seq<KThread>)
    reads s`waitNext
  {
    && head == (if s == [] then null else s[0])
    && forall i | 0 <= i < |s| :: s[i].waitNext == After(s, i)
  }

  function Last(s: seq<KThread>): KThread? { if s == [] then null else s[|s| - 1] }

  /** Every object's list is linked from its head. */
  ghost predicate Chains(heads: map<Obj, KThread?>, waiters: map<Obj, seq<KThread>>, threads: set<KThread>)
    reads threads`waitNext
  {
    && heads.Keys == waiters.Keys
    && forall o | o in waiters :: (forall t | t in waiters[o] :: t in threads) && WaitChain(heads[o], waiters[o])
  }

  /** No thread is in two lists, or twice in one. */
  ghost predicate ListsApart(waiters: map<Obj, seq<KThread>>) {
    && (forall o | o in waiters :: NoDup(waiters[o]))
    && (forall o, p | o in waiters && p in waiters && o != p :: forall t | t in waiters[o] :: t !in waiters[p])
  }

  ghost predicate InNoList(t: KThread, waiters: map<Obj, seq<KThread>>) {
    forall o | o in waiters :: t !in waiters[o]
  }

  lemma ChainsWith(heads: map<Obj, KThread?>, waiters: map<Obj, seq<KThread>>, threads: set<KThread>,
                   o: Obj, head: KThread?, w: seq<KThread>)
    requires heads.Keys == waiters.Keys && o in waiters && WaitChain(head, w) && forall t | t in w :: t in threads
    requires forall p | p in waiters :: forall t | t in waiters[p] :: t in threads
    requires forall p | p in waiters && p != o :: WaitChain(heads[p], waiters[p])
    ensures Chains(heads[o := head], waiters[o := w], threads)
  {
    hide WaitChain;
  }

  function HeadOf(s: seq<KThread>): KThread? { if s == [] then null else s[0] }

  method LinkFront(t: KThread, ghost o: Obj, ghost heads: map<Obj, KThread?>, ghost waiters: map<Obj, seq<KThread>>,
                   ghost threads: set<KThread>, head: KThread?)
    requires Chains(heads, waiters, threads) && InNoList(t, waiters) && t in threads
    requires o in waiters && head == heads[o]
    modifies t`waitNext
    ensures Chains(heads[o := t], waiters[o := [t] + waiters[o]], threads)
  {
    t.waitNext := head;
    ghost var w := [t] + waiters[o];
    forall i | 0 <= i < |w| ensures w[i].waitNext == After(w, i) {
      if i > 0 { assert w[i] == waiters[o][i - 1] && old(waiters[o][i - 1].waitNext) == After(waiters[o], i - 1); }
    }
    forall p | p in waiters && p != o ensures WaitChain(heads[p], waiters[p]) {
      assert old(WaitChain(heads[p], waiters[p]));
    }
    ChainsWith(heads, waiters, threads, o, t, w);
  }

  method LinkBack(t: KThread, ghost o: Obj, ghost heads: map<Obj, KThread?>, ghost waiters: map<Obj, seq<KThread>>,
                  ghost threads: set<KThread>, tail: KThread?)
    requires Chains(heads, waiters, threads) && InNoList(t, waiters) && t in threads && ListsApart(waiters)
    requires o in waiters && tail == Last(waiters[o])
    modifies t`waitNext, waiters[o]`waitNext
    ensures Chains(heads[o := if tail == null then t else heads[o]], waiters[o := waiters[o] + [t]], threads)
  {
    ghost var w := waiters[o] + [t];
    t.waitNext := null;
    if tail != null {
      assert tail in waiters[o];
      tail.waitNext := t;
    }
    forall i | 0 <= i < |w| ensures w[i].waitNext == After(w, i) {
      if i < |waiters[o]| { assert w[i] == waiters[o][i] && old(waiters[o][i].waitNext) == After(waiters[o], i); }
    }
    forall p | p in waiters && p != o ensures WaitChain(heads[p], waiters[p]) {
      assert old(WaitChain(heads[p], waiters[p]));
    }
    ChainsWith(heads, waiters, threads, o, if tail == null then t else heads[o], w);
  }

  method UnlinkHead(t: KThread, ghost o: Obj, ghost heads: map<Obj, KThread?>, ghost waiters: map<Obj, seq<KThread>>,
                    ghost threads: set<KThread>) returns (next: KThread?)
    requires Chains(heads, waiters, threads) && ListsApart(waiters)
    requires o in waiters && waiters[o] != [] && heads[o] == t
    modifies t`waitNext
    ensures t == waiters[o][0]
    ensures next == (if |waiters[o]| == 1 then null else waiters[o][1])
    ensures Chains(heads[o := next], waiters[o := waiters[o][1..]], threads)
  {
    ghost var w := waiters[o][1..];
    assert WaitChain(t, waiters[o]) && waiters[o][0].waitNext == After(waiters[o], 0);
    next := t.waitNext;
    t.waitNext := null;
    forall i | 0 <= i < |w| ensures w[i].waitNext == After(w, i) {
      assert w[i] == waiters[o][i + 1] && old(waiters[o][i + 1].waitNext) == After(waiters[o], i + 1);
    }
    forall p | p in waiters && p != o ensures WaitChain(heads[p], waiters[p]) {
      assert old(WaitChain(heads[p], waiters[p]));
      assert t in waiters[o];
    }
    ChainsWith(heads, waiters, threads, o, next, w);
  }
}
