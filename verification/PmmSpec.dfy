/** Physical memory: the page bitmap of kernel/mm/physical_memory.cpp.

    `PmmSpec` describes the allocator on the abstract value `used: seq<bool>` (one flag per
    4 KB page) and proves what a client may rely on over any run.  `Pmm` is the allocator
    itself: bits packed eight to a byte, a search hint and a free counter, updated in place. */
module PmmSpec {

  const PAGE_SIZE: nat := 4096
  const MAX_PAGES: nat := 0x20_0000     // 8 GB of 4 KB pages
  const BITMAP_BYTES: nat := 0x4_0000

  ghost function FreeSet(used: seq<bool>): set<nat> {
    set p: nat | p < |used| && !used[p]
  }

  /** The lowest free page at or after `i`, or |used| when there is none. */
  ghost function FirstFreeFrom(used: seq<bool>, i: nat): (r: nat)
    requires i <= |used|
    ensures i <= r <= |used| && (r < |used| ==> !used[r])
    ensures forall p | i <= p < r :: used[p]
    decreases |used| - i
  {
    if i == |used| || !used[i] then i else FirstFreeFrom(used, i + 1)
  }

  ghost function FirstFree(used: seq<bool>): nat { FirstFreeFrom(used, 0) }

  ghost predicate FreeRun(used: seq<bool>, s: nat, n: nat) {
    s + n <= |used| && forall p | s <= p < s + n :: !used[p]
  }

  /** The lowest start at or after `s` of `n` consecutive free pages, or |used|. */
  ghost function FirstRunFrom(used: seq<bool>, n: nat, s: nat): (r: nat)
    requires 0 < n && s <= |used|
    ensures s <= r <= |used| && (r < |used| ==> FreeRun(used, r, n))
    ensures forall q | s <= q < r :: !FreeRun(used, q, n)
    decreases |used| - s
  {
    if s == |used| || FreeRun(used, s, n) then s else FirstRunFrom(used, n, s + 1)
  }

  ghost function FirstRun(used: seq<bool>, n: nat): nat requires 0 < n { FirstRunFrom(used, n, 0) }

  ghost function SetRange(used: seq<bool>, s: nat, n: nat): (r: seq<bool>)
    ensures |r| == |used|
    ensures forall p | 0 <= p < |used| :: r[p] == (s <= p < s + n || used[p])
  {
    seq(|used|, p requires 0 <= p < |used| => s <= p < s + n || used[p])
  }

  lemma PageZeroTaken(used: seq<bool>)
    ensures |used| > 0 ==> (used[0] <==> FreeSet(used) !! Pages(0, 1))
    ensures Pages(0, 1) <= Pages(0, 512)
  {
    if |used| > 0 && !used[0] { assert 0 in FreeSet(used) && 0 in Pages(0, 1); }
  }

  // ---- The three operations as functions of the bitmap's value; an address of 0 reports failure.

  ghost function Alloc(used: seq<bool>): (seq<bool>, nat) {
    var f := FirstFree(used);
    if f < |used| then (used[f := true], f * PAGE_SIZE) else (used, 0)
  }

  ghost function AllocMany(used: seq<bool>, n: nat): (seq<bool>, nat) {
    if n == 0 then (used, 0) else
      var s := FirstRun(used, n);
      if s < |used| then (SetRange(used, s, n), s * PAGE_SIZE) else (used, 0)
  }

  ghost function Free(used: seq<bool>, phys: nat): seq<bool> {
    var p := phys / PAGE_SIZE;
    if p >= |used| || !used[p] then used else used[p := false]
  }

  lemma FreeSetUpdate(used: seq<bool>, p: nat)
    requires p < |used|
    ensures FreeSet(used[p := true]) == FreeSet(used) - {p}
    ensures FreeSet(used[p := false]) == FreeSet(used) + {p}
    ensures !used[p] ==> |FreeSet(used[p := true])| == |FreeSet(used)| - 1
    ensures used[p] ==> |FreeSet(used[p := false])| == |FreeSet(used)| + 1
  {
    assert FreeSet(used[p := true]) == FreeSet(used) - {p};
    assert FreeSet(used[p := false]) == FreeSet(used) + {p};
    if !used[p] { assert p in FreeSet(used); }
  }

  ghost predicate Within(p: nat, s: nat, n: nat) { s <= p < s + n }

  ghost function Pages(s: nat, n: nat): (r: set<nat>) { set p: nat | p < s + n && Within(p, s, n) }

  lemma PagesStep(s: nat, n: nat)
    ensures Pages(s, 0) == {}
    ensures Pages(s, n + 1) == Pages(s, n) + {s + n}
  {}

  lemma {:induction false} PagesSize(s: nat, n: nat)
    ensures |Pages(s, n)| == n
  {
    if n == 0 {
      assert Pages(s, 0) == {};
    } else {
      PagesSize(s, n - 1);
      assert Pages(s, n) == Pages(s, n - 1) + {s + n - 1};
    }
  }

  /** With page 0 reserved, as Init leaves it, address 0 is reported exactly when memory is
      exhausted; were page 0 ever freed, handing it out would look like a failure. */
  lemma AllocFailsIffExhausted(used: seq<bool>)
    requires |used| > 0
    ensures used[0] ==> (Alloc(used).1 == 0 <==> FreeSet(used) == {})
    ensures !used[0] ==> Alloc(used).1 == 0 && Alloc(used).0 != used
  {
    var f := FirstFree(used);
    if used[0] {
      if f < |used| {
        assert f in FreeSet(used);
      } else {
        assert FreeSet(used) == {};
      }
    } else {
      assert Alloc(used).0[0];
    }
  }

  /** AllocPage takes the lowest free page, and answers with its address. */
  lemma AllocMeans(used: seq<bool>)
    ensures var (now, phys) := Alloc(used);
      if forall p | 0 <= p < |used| :: used[p] then now == used && phys == 0
      else
        && phys % 4096 == 0 && phys / 4096 < |used| && !used[phys / 4096] && now == used[phys / 4096 := true]
        && forall p | 0 <= p < phys / 4096 :: used[p]
  {}

  /** AllocPages takes the lowest `n` consecutive free pages, and answers with the address of the first. */
  lemma AllocManyMeans(used: seq<bool>, n: nat)
    ensures var (now, phys) := AllocMany(used, n);
      if n == 0 || forall s: nat :: !FreeRun(used, s, n) then now == used && phys == 0
      else
        && phys % 4096 == 0 && FreeRun(used, phys / 4096, n)
        && (forall s: nat | s < phys / 4096 :: !FreeRun(used, s, n))
        && |now| == |used|
        && forall p | 0 <= p < |used| :: now[p] == (used[p] || phys / 4096 <= p < phys / 4096 + n)
  {
    if n > 0 {
      var s := FirstRun(used, n);
      assert s < |used| ==> FreeRun(used, s, n);
    }
  }

  /** FreePage clears the flag of the page that holds the address, if there is such a page. */
  lemma FreeMeans(used: seq<bool>, phys: nat)
    ensures Free(used, phys) == if phys / 4096 < |used| then used[phys / 4096 := false] else used
  {}

  // ---- Whole runs.  `held` is the ledger a client keeps: every page handed out and not yet freed.

  datatype Op = AllocOp | AllocManyOp(n: nat) | FreeOp(phys: nat)

  datatype Ledger = Ledger(used: seq<bool>, held: set<nat>)

  /** The pages one step hands out. */
  ghost function Granted(used: seq<bool>, op: Op): set<nat> {
    match op
    case AllocOp => if FirstFree(used) < |used| then {FirstFree(used)} else {}
    case AllocManyOp(n) => if n > 0 && FirstRun(used, n) < |used| then Pages(FirstRun(used, n), n) else {}
    case FreeOp(_) => {}
  }

  ghost function StepUsed(used: seq<bool>, op: Op): seq<bool> {
    match op
    case AllocOp => Alloc(used).0
    case AllocManyOp(n) => AllocMany(used, n).0
    case FreeOp(a) => Free(used, a)
  }

  /** A client frees only what it holds. */
  ghost predicate Honest(l: Ledger, op: Op) {
    op.FreeOp? ==> op.phys / PAGE_SIZE in l.held
  }

  ghost function Step(l: Ledger, op: Op): Ledger {
    Ledger(StepUsed(l.used, op),
           if op.FreeOp? then l.held - {op.phys / PAGE_SIZE} else l.held + Granted(l.used, op))
  }

  ghost function Run(l: Ledger, ops: seq<Op>): Ledger
    decreases |ops|
  {
    if ops == [] then l else Step(Run(l, ops[..|ops| - 1]), ops[|ops| - 1])
  }

  ghost predicate HonestRun(l: Ledger, ops: seq<Op>)
    decreases |ops|
  {
    ops == [] || (HonestRun(l, ops[..|ops| - 1]) && Honest(Run(l, ops[..|ops| - 1]), ops[|ops| - 1]))
  }

  /** Free and held pages stay the same pages throughout, and what is granted was free. */
  ghost predicate Conserved(l: Ledger, m: Ledger, granted: set<nat>) {
    && |m.used| == |l.used|
    && (forall p | p in m.held :: p < |m.used| && m.used[p])
    && FreeSet(m.used) + m.held == FreeSet(l.used) + l.held
    && |FreeSet(m.used)| + |m.held| == |FreeSet(l.used)| + |l.held|
    && granted <= FreeSet(l.used)
    && granted !! l.held
  }

  lemma GrantConserves(l: Ledger, m: Ledger, granted: set<nat>)
    requires forall p | p in l.held :: p < |l.used| && l.used[p]
    requires |m.used| == |l.used| && granted <= FreeSet(l.used) && m.held == l.held + granted
    requires forall p | 0 <= p < |l.used| :: m.used[p] == (l.used[p] || p in granted)
    ensures Conserved(l, m, granted)
  {
    assert FreeSet(m.used) == FreeSet(l.used) - granted;
    assert |FreeSet(m.used)| == |FreeSet(l.used)| - |granted|;
    assert |m.held| == |l.held| + |granted|;
  }

  lemma FreeConserves(l: Ledger, phys: nat)
    requires (forall p | p in l.held :: p < |l.used| && l.used[p]) && phys / PAGE_SIZE in l.held
    ensures Conserved(l, Step(l, FreeOp(phys)), {})
  {
    FreeSetUpdate(l.used, phys / PAGE_SIZE);
  }

  lemma AllocManyGrant(used: seq<bool>, n: nat)
    ensures var g := Granted(used, AllocManyOp(n));
            && g <= FreeSet(used)
            && forall p | 0 <= p < |used| :: AllocMany(used, n).0[p] == (used[p] || p in g)
  {
    if n > 0 && FirstRun(used, n) < |used| {
      assert FreeRun(used, FirstRun(used, n), n);
    }
  }

  lemma StepConserves(l: Ledger, op: Op)
    requires (forall p | p in l.held :: p < |l.used| && l.used[p]) && Honest(l, op)
    ensures Conserved(l, Step(l, op), Granted(l.used, op))
  {
    match op {
      case AllocOp =>
        GrantConserves(l, Step(l, op), Granted(l.used, op));
      case AllocManyOp(n) =>
        AllocManyGrant(l.used, n);
        GrantConserves(l, Step(l, op), Granted(l.used, op));
      case FreeOp(a) =>
        FreeConserves(l, a);
    }
  }

  /** Over any run that frees only what was handed out, no page is ever handed out while it is
      still held, and free and held pages together are the same pages throughout. */
  lemma {:induction false} RunConserves(used: seq<bool>, ops: seq<Op>)
    requires HonestRun(Ledger(used, {}), ops)
    ensures var m := Run(Ledger(used, {}), ops);
            && |m.used| == |used|
            && (forall p | p in m.held :: p < |m.used| && m.used[p])
            && FreeSet(m.used) + m.held == FreeSet(used)
            && |FreeSet(m.used)| + |m.held| == |FreeSet(used)|
            && forall op | Honest(m, op) :: Granted(m.used, op) !! m.held
  {
    if ops != [] {
      RunConserves(used, ops[..|ops| - 1]);
      StepConserves(Run(Ledger(used, {}), ops[..|ops| - 1]), ops[|ops| - 1]);
    }
    var m := Run(Ledger(used, {}), ops);
    forall op | Honest(m, op) ensures Granted(m.used, op) !! m.held {
      StepConserves(m, op);
    }
  }
}
