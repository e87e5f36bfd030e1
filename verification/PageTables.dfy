/** The 4-level page tables of kernel/mm/virtual_memory.cpp as values.

    `Vm` is the part of physical memory that holds tables, together with the page bitmap that
    hands out their frames.  The operations below are the source's, branch for branch; `Wf` is
    the heap shape every one of them keeps, and from it follow exactness (an operation changes
    one page of one address space) and isolation over whole runs.  A page-table entry is its
    64-bit value; Intel SDM Vol. 3A, section 4.5, gives its fields. */
module PageTables {
  import opened PmmSpec
  import opened Wrappers

  type Frame = nat   // page number of a physical frame

  datatype Vm = Vm(mem: map<Frame, seq<nat>>, used: seq<bool>)

  // ---- Entries ----------------------------------------------------------------

  predicate Present(e: nat) { e % 2 == 1 }

  predicate Huge(e: nat) { e / 128 % 2 == 1 }

  /** Bits 12..51, as a page number: PTE_ADDR_MASK. */
  function FrameOf(e: nat): nat { e / 4096 % 0x100_0000_0000 }

  /** `phys | PRESENT | WRITABLE | USER` for a page-aligned address. */
  function TableEntry(f: Frame): nat { f * 4096 + 7 }

  /** `(phys & ADDR_MASK) | (flags | PRESENT)` for flags without address bits. */
  function LeafEntry(phys: nat, flags: nat): nat
    requires FrameOf(flags) == 0
  {
    FrameOf(phys) * 4096 + if Present(flags) then flags else flags + 1
  }

  /** An entry's fields, from its frame and its bits below 12. */
  lemma Fields(f: nat, low: nat)
    requires low < 4096
    ensures (f * 4096 + low) / 4096 == f
    ensures (f * 4096 + low) / 128 == f * 32 + low / 128
    ensures (f * 4096 + low) % 2 == low % 2
  {
    Above4096(f, low);
    Above128(f * 32, low);
    EvenPlus(f * 2048, low);
  }

  lemma Above4096(g: nat, low: nat)
    ensures (g * 4096 + low) / 4096 == g + low / 4096
  {}

  lemma Above128(g: nat, low: nat)
    ensures (g * 128 + low) / 128 == g + low / 128
  {}

  lemma EvenPlus(g: nat, b: nat)
    ensures (g * 2 + b) % 2 == b % 2
  {}

  lemma TableEntryFields(f: Frame)
    requires f < MAX_PAGES
    ensures Present(TableEntry(f)) && !Huge(TableEntry(f)) && FrameOf(TableEntry(f)) == f
  {
    Fields(f, 7);
    EvenPlus(f * 16, 0);
  }

  lemma LeafEntryFields(phys: nat, flags: nat)
    requires FrameOf(flags) == 0
    ensures Present(LeafEntry(phys, flags)) && FrameOf(LeafEntry(phys, flags)) == FrameOf(phys)
  {
    var f := FrameOf(phys);
    var g := if Present(flags) then flags else flags + 1;
    if !Present(flags) { NextOdd(flags); }
    Above4096(f, g);
    EvenPlus(f * 2048, g);
    FrameSum(f, g / 4096);
  }

  lemma NextOdd(n: nat)
    requires n % 2 == 0
    ensures (n + 1) / 4096 == n / 4096 && (n + 1) % 2 == 1
  {
    assert n == n / 2 * 2;
    EvenPlus(n / 2, 1);
    Half(n);
    Half(n + 1);
  }

  lemma Half(n: nat)
    ensures n / 4096 == n / 2 / 2048
  {}

  lemma FrameSum(f: nat, h: nat)
    requires f < 0x100_0000_0000 && h % 0x100_0000_0000 == 0
    ensures (f + h) % 0x100_0000_0000 == f
  {}

  // ---- Virtual addresses ------------------------------------------------------

  function Pml4Idx(va: nat): nat { va / 0x80_0000_0000 % 512 }
  function PdptIdx(va: nat): nat { va / 0x4000_0000 % 512 }
  function PdIdx(va: nat): nat { va / 0x20_0000 % 512 }
  function PtIdx(va: nat): nat { va / 0x1000 % 512 }

  /** The slots that lead to the page table covering an address. */
  function Dir(va: nat): seq<nat> { [Pml4Idx(va), PdptIdx(va), PdIdx(va)] }

  predicate SamePage(va: nat, vb: nat) { Dir(va) == Dir(vb) && PtIdx(va) == PtIdx(vb) }

  /** Four indices are the 36 bits above the page offset: the walk sees nothing else. */
  lemma SamePageIff(va: nat, vb: nat)
    ensures SamePage(va, vb) <==> va / 4096 % 0x10_0000_0000 == vb / 4096 % 0x10_0000_0000
  {
    hide Pml4Idx, PdptIdx, PdIdx, PtIdx;
    Digits(va);
    Digits(vb);
    IndexBounds(va);
    IndexBounds(vb);
    assert Dir(va) == Dir(vb) ==> Dir(va)[0] == Dir(vb)[0] && Dir(va)[1] == Dir(vb)[1] && Dir(va)[2] == Dir(vb)[2];
    if SamePage(va, vb) {
    } else if va / 4096 % 0x10_0000_0000 == vb / 4096 % 0x10_0000_0000 {
      SameDigits(Pml4Idx(va), PdptIdx(va), PdIdx(va), PtIdx(va), Pml4Idx(vb), PdptIdx(vb), PdIdx(vb), PtIdx(vb));
    }
  }

  lemma SameDigits(a: nat, b: nat, c: nat, d: nat, a': nat, b': nat, c': nat, d': nat)
    requires b < 512 && c < 512 && d < 512 && b' < 512 && c' < 512 && d' < 512
    requires a * 0x800_0000 + b * 0x4_0000 + c * 0x200 + d == a' * 0x800_0000 + b' * 0x4_0000 + c' * 0x200 + d'
    ensures a == a' && b == b' && c == c' && d == d'
  {}

  lemma IndexBounds(va: nat)
    ensures Pml4Idx(va) < 512 && PdptIdx(va) < 512 && PdIdx(va) < 512 && PtIdx(va) < 512
  {}

  lemma Digits(va: nat)
    ensures va / 4096 % 0x10_0000_0000 ==
      Pml4Idx(va) * 0x800_0000 + PdptIdx(va) * 0x4_0000 + PdIdx(va) * 0x200 + PtIdx(va)
  {
    var n := va / 4096;
    assert va / 0x20_0000 == n / 512;
    assert va / 0x4000_0000 == n / 0x4_0000;
    assert va / 0x80_0000_0000 == n / 0x800_0000;
    LowDigits(n);
  }

  lemma LowDigits(n: nat)
    ensures n % 0x10_0000_0000 ==
      n / 0x800_0000 % 512 * 0x800_0000 + n / 0x4_0000 % 512 * 0x4_0000 + n / 512 % 512 * 512 + n % 512
  {
    TopDigit(n);
    MidDigit(n);
    LowDigit(n);
  }

  lemma TopDigit(n: nat)
    ensures n % 0x10_0000_0000 == n / 0x800_0000 % 512 * 0x800_0000 + n % 0x800_0000
  {}

  lemma MidDigit(n: nat)
    ensures n % 0x800_0000 == n / 0x4_0000 % 512 * 0x4_0000 + n % 0x4_0000
  {}

  lemma LowDigit(n: nat)
    ensures n % 0x4_0000 == n / 512 % 512 * 512 + n % 512
  {}

  // ---- Reading ----------------------------------------------------------------

  function Entry(m: map<Frame, seq<nat>>, f: Frame, i: nat): nat {
    if f in m && i < |m[f]| then m[f][i] else 0
  }

  /** What a walk finds: the abstract content of an address space. */
  datatype View = NotMapped | Page4K(pte: nat) | Page2M(pde: nat) | Page1G(pdpte: nat)

  function Lookup(m: map<Frame, seq<nat>>, root: Frame, va: nat): View {
    var e1 := Entry(m, root, Pml4Idx(va));
    if !Present(e1) || Huge(e1) then NotMapped else
    var e2 := Entry(m, FrameOf(e1), PdptIdx(va));
    if !Present(e2) then NotMapped else
    if Huge(e2) then Page1G(e2) else
    var e3 := Entry(m, FrameOf(e2), PdIdx(va));
    if !Present(e3) then NotMapped else
    if Huge(e3) then Page2M(e3) else
    var pte := Entry(m, FrameOf(e3), PtIdx(va));
    if !Present(pte) then NotMapped else Page4K(pte)
  }

  /** TranslateInPml4: 0 stands for "not mapped".  The 1 GB mask keeps bits 30..55. */
  function Translate(m: map<Frame, seq<nat>>, root: Frame, va: nat): nat {
    match Lookup(m, root, va)
    case NotMapped => 0
    case Page1G(e) => e / 0x4000_0000 % 0x400_0000 * 0x4000_0000 + va % 0x4000_0000
    case Page2M(e) => e / 0x20_0000 % 0x8000_0000 * 0x20_0000 + va % 0x20_0000
    case Page4K(e) => FrameOf(e) * 4096 + va % 4096
  }

  /** Where the three sizes of pages lead: the base in the entry, and the offset in the page. */
  lemma PageTranslates(m: map<Frame, seq<nat>>, root: Frame, va: nat, g: nat, low: nat)
    ensures g < 0x100_0000_0000 && low < 0x1000 && Lookup(m, root, va) == Page4K(g * 0x1000 + low) ==>
      Translate(m, root, va) == g * 0x1000 + va % 0x1000
    ensures g < 0x8000_0000 && low < 0x20_0000 && Lookup(m, root, va) == Page2M(g * 0x20_0000 + low) ==>
      Translate(m, root, va) == g * 0x20_0000 + va % 0x20_0000
    ensures g < 0x400_0000 && low < 0x4000_0000 && Lookup(m, root, va) == Page1G(g * 0x4000_0000 + low) ==>
      Translate(m, root, va) == g * 0x4000_0000 + va % 0x4000_0000
    ensures Lookup(m, root, va) == NotMapped ==> Translate(m, root, va) == 0
  {
    hide Lookup, FrameOf;
    if g < 0x100_0000_0000 && low < 0x1000 { SmallBase(g, low); }
    if g < 0x8000_0000 && low < 0x20_0000 { MiddleBase(g, low); }
    if g < 0x400_0000 && low < 0x4000_0000 { LargeBase(g, low); }
  }

  lemma SmallBase(g: nat, low: nat)
    requires g < 0x100_0000_0000 && low < 0x1000
    ensures FrameOf(g * 0x1000 + low) == g
  {
    Above4096(g, low);
  }

  lemma MiddleBase(g: nat, low: nat)
    requires g < 0x8000_0000 && low < 0x20_0000
    ensures (g * 0x20_0000 + low) / 0x20_0000 % 0x8000_0000 == g
  {
    assert (g * 0x20_0000 + low) / 0x20_0000 == g;
  }

  lemma LargeBase(g: nat, low: nat)
    requires g < 0x400_0000 && low < 0x4000_0000
    ensures (g * 0x4000_0000 + low) / 0x4000_0000 % 0x400_0000 == g
  {
    assert (g * 0x4000_0000 + low) / 0x4000_0000 == g;
  }

  // ---- Writing ----------------------------------------------------------------

  function SetEntry(m: map<Frame, seq<nat>>, f: Frame, i: nat, e: nat): map<Frame, seq<nat>> {
    if f in m && i < |m[f]| then
      var t: seq<nat> := m[f][i := e];
      m[f := t]
    else m
  }

  function Zeros(): (z: seq<nat>)
    ensures |z| == 512 && forall i | 0 <= i < 512 :: z[i] == 0
  {
    seq(512, _ => 0)
  }

  /** get_or_alloc on slot `i` of table `g`. */
  ghost function GetOrAlloc(vm: Vm, g: Frame, i: nat): (Vm, Option<Frame>) {
    var e := Entry(vm.mem, g, i);
    if Present(e) then
      (vm, if Huge(e) then None else Some(FrameOf(e)))
    else
      var (used, phys) := Alloc(vm.used);
      if phys == 0 then
        (Vm(vm.mem, used), None)
      else
        var f := phys / 4096;
        (Vm(SetEntry(vm.mem[f := Zeros()], g, i, TableEntry(f)), used), Some(f))
  }

  /** The three descents of MapPageInto: the page table that covers `va`, made if missing. */
  ghost function PageTableFor(vm: Vm, root: Frame, va: nat): (Vm, Option<Frame>) {
    var (v1, pdpt) := GetOrAlloc(vm, root, Pml4Idx(va));
    if pdpt.None? then (v1, None) else
    var (v2, pd) := GetOrAlloc(v1, pdpt.value, PdptIdx(va));
    if pd.None? then (v2, None) else
    GetOrAlloc(v2, pd.value, PdIdx(va))
  }

  ghost function MapPageInto(vm: Vm, root: Frame, va: nat, phys: nat, flags: nat): (Vm, bool)
    requires FrameOf(flags) == 0
  {
    var (v, pt) := PageTableFor(vm, root, va);
    if pt.None? then (v, false) else
    (v.(mem := SetEntry(v.mem, pt.value, PtIdx(va), LeafEntry(phys, flags))), true)
  }

  /** The page table a walk reaches without allocating: the common prefix of ProtectPageInto,
      GetPteInto and UnmapPageFrom. */
  function LeafTable(m: map<Frame, seq<nat>>, root: Frame, va: nat): Option<Frame> {
    var e1 := Entry(m, root, Pml4Idx(va));
    if !Present(e1) || Huge(e1) then None else
    var e2 := Entry(m, FrameOf(e1), PdptIdx(va));
    if !Present(e2) || Huge(e2) then None else
    var e3 := Entry(m, FrameOf(e2), PdIdx(va));
    if !Present(e3) || Huge(e3) then None else Some(FrameOf(e3))
  }

  function ProtectPageInto(vm: Vm, root: Frame, va: nat, flags: nat): (Vm, bool)
    requires FrameOf(flags) == 0
  {
    var pt := LeafTable(vm.mem, root, va);
    if pt.None? then (vm, false) else
    var pte := Entry(vm.mem, pt.value, PtIdx(va));
    if !Present(pte) then (vm, false) else
    (vm.(mem := SetEntry(vm.mem, pt.value, PtIdx(va), LeafEntry(pte, flags))), true)
  }

  function UnmapPageFrom(vm: Vm, root: Frame, va: nat): Vm {
    var pt := LeafTable(vm.mem, root, va);
    if pt.None? then vm else
    vm.(mem := SetEntry(vm.mem, pt.value, PtIdx(va), 0))
  }

  /** GetPteInto: the raw entry, 0 when no page table covers the address. */
  function GetPteInto(m: map<Frame, seq<nat>>, root: Frame, va: nat): nat {
    var pt := LeafTable(m, root, va);
    if pt.None? then 0 else Entry(m, pt.value, PtIdx(va))
  }

  // ---- The heap shape ---------------------------------------------------------

  /** A table's place: the address space that owns it and the slots that lead to it. */
  datatype Pos = Pos(owner: Frame, path: seq<nat>)

  /** `k` is the kernel's root; `copied[r]` are the PML4 slots user root `r` took over from it. */
  datatype Shape = Shape(k: Frame, copied: map<Frame, set<nat>>, at: map<Pos, Frame>) {
    ghost predicate Root(r: Frame) { r == k || r in copied }

    /** Slots that user space `r` shares with the kernel: the first 4 GB and the copied slots. */
    ghost predicate Shared(r: Frame, path: seq<nat>) {
      || r == k
      || (|path| >= 1 && path[0] >= 1 && r in copied && path[0] in copied[r])
      || (|path| >= 2 && path[0] == 0 && path[1] < 4)
    }

    ghost function Owner(r: Frame, path: seq<nat>): Frame { if Shared(r, path) then k else r }

    ghost function Reach(r: Frame, path: seq<nat>): Pos { Pos(Owner(r, path), path) }

    ghost function Child(p: Pos, i: nat): Pos { Reach(p.owner, p.path + [i]) }
  }

  ghost predicate TableOk(vm: Vm, sh: Shape, p: Pos)
    requires p in sh.at
  {
    var f := sh.at[p];
    && (|p.path| > 0 ==> Pos(p.owner, p.path[..|p.path| - 1]) in sh.at)
    && |p.path| <= 3 && sh.Root(p.owner) && (sh.Shared(p.owner, p.path) ==> p.owner == sh.k)
    && f in vm.mem && |vm.mem[f]| == 512 && 0 < f < |vm.used| && vm.used[f]
  }

  /** A slot leads to a table exactly when the shape has a table there, and then to that one. */
  ghost predicate SlotOk(vm: Vm, sh: Shape, p: Pos, i: nat)
    requires p in sh.at
  {
    var e := Entry(vm.mem, sh.at[p], i);
    && (p.path == [] && Present(e) ==> !Huge(e))
    && (Present(e) && !Huge(e) <==> sh.Child(p, i) in sh.at)
    && (sh.Child(p, i) in sh.at ==> FrameOf(e) == sh.at[sh.Child(p, i)])
  }

  ghost predicate RootOk(sh: Shape, r: Frame) {
    && Pos(r, []) in sh.at && sh.at[Pos(r, [])] == r
    && Pos(r, [0]) in sh.at
    && (forall i: nat | i < 4 :: Pos(sh.k, [0, i]) in sh.at)
    && (r in sh.copied ==> forall i | i in sh.copied[r] :: 1 <= i < 512 && Pos(sh.k, [i]) in sh.at)
  }

  /** Tables form one tree per address space, joined only at the slots shared with the kernel;
      no two places hold the same frame, and every table's frame is allocated. */
  ghost predicate Wf(vm: Vm, sh: Shape) {
    && |vm.used| == MAX_PAGES && vm.used[0]
    && sh.k !in sh.copied
    && (forall r | sh.Root(r) :: RootOk(sh, r))
    && (forall p | p in sh.at :: TableOk(vm, sh, p))
    && (forall p, q | p in sh.at && q in sh.at && sh.at[p] == sh.at[q] :: p == q)
    && (forall p, i: nat | p in sh.at && |p.path| < 3 && i < 512 :: SlotOk(vm, sh, p, i))
  }

  // ---- What the shape says about walks -----------------------------------------

  lemma WfSlot(vm: Vm, sh: Shape, p: Pos, i: nat)
    requires Wf(vm, sh) && p in sh.at && |p.path| < 3 && i < 512
    ensures SlotOk(vm, sh, p, i)
  {}

  lemma WfTable(vm: Vm, sh: Shape, p: Pos)
    requires Wf(vm, sh) && p in sh.at
    ensures TableOk(vm, sh, p)
  {}

  lemma WfRoot(vm: Vm, sh: Shape, r: Frame)
    requires Wf(vm, sh) && sh.Root(r)
    ensures RootOk(sh, r) && |vm.used| == MAX_PAGES && vm.used[0] && sh.k !in sh.copied
  {}

  lemma ReachStep(sh: Shape, r: Frame, path: seq<nat>, i: nat)
    requires path == [] ==> !sh.Shared(r, []) || r == sh.k
    ensures sh.Child(sh.Reach(r, path), i) == sh.Reach(r, path + [i])
  {}

  lemma PrefixReached(vm: Vm, sh: Shape, r: Frame, path: seq<nat>, i: nat)
    requires Wf(vm, sh) && sh.Root(r) && sh.Reach(r, path + [i]) in sh.at
    ensures sh.Reach(r, path) in sh.at
  {
    var p := sh.Reach(r, path + [i]);
    assert TableOk(vm, sh, p) && RootOk(sh, r);
    assert p.path[..|p.path| - 1] == path;
    if sh.Owner(r, path) != p.owner {
      assert path == [] || path == [0];
    }
  }

  /** The places a walk from `r` passes through are fixed by the shape alone. */
  lemma WalkPlaces(vm: Vm, sh: Shape, r: Frame, va: nat)
    requires Wf(vm, sh) && sh.Root(r)
    ensures var pt := LeafTable(vm.mem, r, va);
            && (pt.Some? <==> sh.Reach(r, Dir(va)) in sh.at)
            && (pt.Some? ==> pt.value == sh.at[sh.Reach(r, Dir(va))])
  {
    hide Present, Huge, FrameOf, Pml4Idx, PdptIdx, PdIdx;
    var a, b, c := Pml4Idx(va), PdptIdx(va), PdIdx(va);
    IndexBounds(va);
    assert [] + [a] == [a] && [a] + [b] == [a, b] && [a, b] + [c] == Dir(va);
    assert RootOk(sh, r);
    assert SlotOk(vm, sh, Pos(r, []), a);
    ReachStep(sh, r, [], a);
    if sh.Reach(r, Dir(va)) in sh.at { PrefixReached(vm, sh, r, [a, b], c); }
    if sh.Reach(r, [a, b]) in sh.at { PrefixReached(vm, sh, r, [a], b); }
    if sh.Reach(r, [a]) in sh.at {
      ReachStep(sh, r, [a], b);
      assert SlotOk(vm, sh, sh.Reach(r, [a]), b);
      if sh.Reach(r, [a, b]) in sh.at {
        ReachStep(sh, r, [a, b], c);
        assert SlotOk(vm, sh, sh.Reach(r, [a, b]), c);
      }
    }
  }

  // ---- Writing a leaf entry changes one page -------------------------------------

  function LeafView(pte: nat): View { if Present(pte) then Page4K(pte) else NotMapped }

  lemma LookupLeaf(m: map<Frame, seq<nat>>, root: Frame, va: nat)
    ensures var pt := LeafTable(m, root, va);
            pt.Some? ==> Lookup(m, root, va) == LeafView(Entry(m, pt.value, PtIdx(va)))
  {}

  /** Two memories that agree on every directory table agree on the page table a walk reaches. */
  lemma SameDirectories(vm: Vm, vn: Vm, sh: Shape, r: Frame, va: nat)
    requires Wf(vm, sh) && sh.Root(r)
    requires forall p | p in sh.at && |p.path| < 3 :: sh.at[p] in vn.mem && vn.mem[sh.at[p]] == vm.mem[sh.at[p]]
    ensures LeafTable(vn.mem, r, va) == LeafTable(vm.mem, r, va)
    ensures LeafTable(vm.mem, r, va).None? ==> Lookup(vn.mem, r, va) == Lookup(vm.mem, r, va)
  {
    hide Present, Huge, FrameOf, Pml4Idx, PdptIdx, PdIdx, PtIdx, Wf;
    var a, b, c := Pml4Idx(va), PdptIdx(va), PdIdx(va);
    IndexBounds(va);
    assert [] + [a] == [a] && [a] + [b] == [a, b];
    WfRoot(vm, sh, r);
    WfTable(vm, sh, Pos(r, []));
    WfSlot(vm, sh, Pos(r, []), a);
    ReachStep(sh, r, [], a);
    if sh.Reach(r, [a]) in sh.at {
      ReachStep(sh, r, [a], b);
      WfTable(vm, sh, sh.Reach(r, [a]));
      if sh.Reach(r, [a, b]) in sh.at { WfTable(vm, sh, sh.Reach(r, [a, b])); }
      WfSlot(vm, sh, sh.Reach(r, [a]), b);
    }
  }

  /** What an address space sees after the leaf entry for `va` in space `r` became `pte`. */
  ghost predicate LeafChanged(vm: Vm, vn: Vm, sh: Shape, r: Frame, va: nat, pte: nat) {
    forall s, vb: nat | sh.Root(s) ::
      Lookup(vn.mem, s, vb) ==
        if SamePage(va, vb) && sh.Owner(s, Dir(va)) == sh.Owner(r, Dir(va)) then LeafView(pte)
        else Lookup(vm.mem, s, vb)
  }

  lemma LeafWrite(vm: Vm, sh: Shape, r: Frame, va: nat, pte: nat)
    requires Wf(vm, sh) && sh.Root(r) && LeafTable(vm.mem, r, va).Some?
    ensures var vn := vm.(mem := SetEntry(vm.mem, LeafTable(vm.mem, r, va).value, PtIdx(va), pte));
            Wf(vn, sh) && LeafChanged(vm, vn, sh, r, va, pte)
  {
    hide Present, Huge, FrameOf, Pml4Idx, PdptIdx, PdIdx, PtIdx;
    WalkPlaces(vm, sh, r, va);
    IndexBounds(va);
    var p := sh.Reach(r, Dir(va));
    assert TableOk(vm, sh, p);
    var f := sh.at[p];
    var vn := vm.(mem := SetEntry(vm.mem, f, PtIdx(va), pte));
    LeafWriteWf(vm, vn, sh, p, PtIdx(va), pte);
    forall s, vb: nat | sh.Root(s)
      ensures Lookup(vn.mem, s, vb) ==
        if SamePage(va, vb) && sh.Owner(s, Dir(va)) == sh.Owner(r, Dir(va)) then LeafView(pte)
        else Lookup(vm.mem, s, vb)
    {
      LeafWriteAt(vm, vn, sh, r, va, pte, s, vb);
    }
  }

  lemma LeafWriteWf(vm: Vm, vn: Vm, sh: Shape, p: Pos, i: nat, pte: nat)
    requires Wf(vm, sh) && p in sh.at && |p.path| == 3
    requires vn == vm.(mem := SetEntry(vm.mem, sh.at[p], i, pte))
    ensures Wf(vn, sh)
  {
    hide Present, Huge, FrameOf, RootOk, Shape.Child;
    assert TableOk(vm, sh, p);
    forall q | q in sh.at ensures TableOk(vn, sh, q) { assert TableOk(vm, sh, q); }
    forall q, j: nat | q in sh.at && |q.path| < 3 && j < 512 ensures SlotOk(vn, sh, q, j) {
      LeafWriteSlot(vm, vn, sh, p, i, pte, q, j);
    }
  }

  lemma LeafWriteSlot(vm: Vm, vn: Vm, sh: Shape, p: Pos, i: nat, pte: nat, q: Pos, j: nat)
    requires Wf(vm, sh) && p in sh.at && |p.path| == 3 && q in sh.at && |q.path| < 3 && j < 512
    requires vn == vm.(mem := SetEntry(vm.mem, sh.at[p], i, pte))
    ensures SlotOk(vn, sh, q, j)
  {
    hide Present, Huge, FrameOf, RootOk, Shape.Child;
    assert SlotOk(vm, sh, q, j) && TableOk(vm, sh, q);
  }

  lemma LeafWriteAt(vm: Vm, vn: Vm, sh: Shape, r: Frame, va: nat, pte: nat, s: Frame, vb: nat)
    requires Wf(vm, sh) && sh.Root(r) && sh.Root(s) && sh.Reach(r, Dir(va)) in sh.at
    requires vn == vm.(mem := SetEntry(vm.mem, sh.at[sh.Reach(r, Dir(va))], PtIdx(va), pte))
    ensures Lookup(vn.mem, s, vb) ==
      if SamePage(va, vb) && sh.Owner(s, Dir(va)) == sh.Owner(r, Dir(va)) then LeafView(pte)
      else Lookup(vm.mem, s, vb)
  {
    hide Present, Huge, FrameOf, Pml4Idx, PdptIdx, PdIdx, PtIdx;
    var p := sh.Reach(r, Dir(va));
    assert TableOk(vm, sh, p);
    forall q | q in sh.at && |q.path| < 3
      ensures sh.at[q] in vn.mem && vn.mem[sh.at[q]] == vm.mem[sh.at[q]]
    {
      assert TableOk(vm, sh, q);
    }
    SameDirectories(vm, vn, sh, s, vb);
    WalkPlaces(vm, sh, s, vb);
    LookupLeaf(vm.mem, s, vb);
    LookupLeaf(vn.mem, s, vb);
    IndexBounds(va);
  }

  // ---- Adding an empty table changes no translation -------------------------------

  /** A slot that leads to a table, rather than being empty or a huge page. */
  predicate Leads(e: nat) { Present(e) && !Huge(e) }

  /** `vn` is `vm` with a fresh frame `f`, holding `t`, linked at slot `i` of the table at place `p`. */
  ghost predicate Linked(vm: Vm, vn: Vm, sh: Shape, p: Pos, i: nat, f: Frame, t: seq<nat>) {
    && Wf(vm, sh) && p in sh.at && |p.path| < 3 && i < 512 && !Leads(Entry(vm.mem, sh.at[p], i))
    && 0 < f < MAX_PAGES && !vm.used[f] && |t| == 512 && (|p.path| < 2 ==> t == Zeros())
    && vn == Vm(SetEntry(vm.mem[f := t], sh.at[p], i, TableEntry(f)), vm.used[f := true])
  }

  ghost function WithTable(sh: Shape, p: Pos, i: nat, f: Frame): Shape {
    sh.(at := sh.at[sh.Child(p, i) := f])
  }

  lemma SharedSlotFilled(vm: Vm, sh: Shape, r: Frame, path: seq<nat>, i: nat)
    requires Wf(vm, sh) && sh.Root(r) && !sh.Shared(r, path) && sh.Shared(r, path + [i])
    ensures Pos(sh.k, path + [i]) in sh.at
  {
    hide Present, Huge, FrameOf, SlotOk, TableOk;
    assert RootOk(sh, r);
    if path == [] {
      assert path + [i] == [i];
    } else {
      assert (path + [i])[0] == path[0] && path == [0] && path + [i] == [0, i];
    }
  }

  /** A slot that is shared with the kernel is never empty, so it is never filled twice. */
  lemma EmptySlotIsPrivate(vm: Vm, sh: Shape, p: Pos, i: nat)
    requires Wf(vm, sh) && p in sh.at && |p.path| < 3 && i < 512 && !Leads(Entry(vm.mem, sh.at[p], i))
    ensures sh.Child(p, i) == Pos(p.owner, p.path + [i]) && sh.Child(p, i) !in sh.at
  {
    hide Present, Huge, FrameOf, RootOk, Entry;
    assert SlotOk(vm, sh, p, i) && TableOk(vm, sh, p);
    if sh.Child(p, i).owner != p.owner { SharedSlotFilled(vm, sh, p.owner, p.path, i); }
  }

  lemma EmptySlotIsUnique(vm: Vm, sh: Shape, p: Pos, i: nat, q: Pos, j: nat)
    requires Wf(vm, sh) && p in sh.at && |p.path| < 3 && i < 512 && !Leads(Entry(vm.mem, sh.at[p], i))
    requires q in sh.at && sh.Child(q, j) == sh.Child(p, i)
    ensures q == p && j == i
  {
    EmptySlotIsPrivate(vm, sh, p, i);
    hide Present, Huge, FrameOf, RootOk, Entry, SlotOk;
    assert TableOk(vm, sh, q);
    assert (q.path + [j])[..|q.path|] == q.path && (p.path + [i])[..|p.path|] == p.path;
    assert (q.path + [j])[|q.path|] == j && (p.path + [i])[|p.path|] == i;
    assert |q.path + [j]| == |p.path + [i]|;
    if q.owner != p.owner { SharedSlotFilled(vm, sh, q.owner, q.path, j); }
  }

  lemma LinkedEntry(vm: Vm, vn: Vm, sh: Shape, p: Pos, i: nat, f: Frame, t: seq<nat>, q: Pos, j: nat)
    requires Linked(vm, vn, sh, p, i, f, t) && q in sh.at
    ensures sh.at[q] != f && sh.at[q] in vn.mem && |vn.mem[sh.at[q]]| == 512
    ensures Entry(vn.mem, sh.at[q], j) == if q == p && j == i then TableEntry(f) else Entry(vm.mem, sh.at[q], j)
    ensures j < 512 ==> Entry(vn.mem, f, j) == t[j]
  {
    hide Present, Huge, FrameOf, TableEntry, SlotOk, RootOk;
    assert TableOk(vm, sh, p) && TableOk(vm, sh, q);
  }

  lemma LinkedFields(vm: Vm, vn: Vm, sh: Shape, p: Pos, i: nat, f: Frame, t: seq<nat>)
    requires Linked(vm, vn, sh, p, i, f, t)
    ensures WithTable(sh, p, i, f).k == sh.k && WithTable(sh, p, i, f).copied == sh.copied
    ensures |vn.used| == MAX_PAGES && vn.used[0] && sh.k !in sh.copied
  {}

  lemma LinkedWf(vm: Vm, vn: Vm, sh: Shape, p: Pos, i: nat, f: Frame, t: seq<nat>)
    requires Linked(vm, vn, sh, p, i, f, t)
    ensures Wf(vn, WithTable(sh, p, i, f))
  {
    hide Present, Huge, FrameOf, Entry, SlotOk, RootOk, TableOk, WithTable, Linked;
    LinkedFields(vm, vn, sh, p, i, f, t);
    var sn := WithTable(sh, p, i, f);
    forall q, q' | q in sn.at && q' in sn.at && sn.at[q] == sn.at[q'] ensures q == q' {
      LinkedDistinct(vm, vn, sh, p, i, f, t, q, q');
    }
    forall q | q in sn.at ensures TableOk(vn, sn, q) { LinkedTable(vm, vn, sh, p, i, f, t, q); }
    forall r | sn.Root(r) ensures RootOk(sn, r) { LinkedRoot(vm, vn, sh, p, i, f, t, r); }
    forall q, j: nat | q in sn.at && |q.path| < 3 && j < 512 ensures SlotOk(vn, sn, q, j) {
      LinkedSlot(vm, vn, sh, p, i, f, t, q, j);
    }
  }

  lemma LinkedDistinct(vm: Vm, vn: Vm, sh: Shape, p: Pos, i: nat, f: Frame, t: seq<nat>, q: Pos, q': Pos)
    requires Linked(vm, vn, sh, p, i, f, t)
    requires var at := WithTable(sh, p, i, f).at; q in at && q' in at && at[q] == at[q']
    ensures q == q'
  {
    hide Present, Huge, FrameOf, Entry, SlotOk, RootOk, TableOk;
    if q in sh.at { LinkedEntry(vm, vn, sh, p, i, f, t, q, 0); }
    if q' in sh.at { LinkedEntry(vm, vn, sh, p, i, f, t, q', 0); }
  }

  lemma LinkedTable(vm: Vm, vn: Vm, sh: Shape, p: Pos, i: nat, f: Frame, t: seq<nat>, q: Pos)
    requires Linked(vm, vn, sh, p, i, f, t) && q in WithTable(sh, p, i, f).at
    ensures TableOk(vn, WithTable(sh, p, i, f), q)
  {
    hide Present, Huge, FrameOf, Entry, SlotOk, RootOk, Wf, SetEntry, TableEntry;
    EmptySlotIsPrivate(vm, sh, p, i);
    WfTable(vm, sh, p);
    assert (p.path + [i])[..|p.path|] == p.path;
    LinkedKept(vm, vn, sh, p, i, f, t);
    if q in sh.at { WfTable(vm, sh, q); }
  }

  lemma LinkedKept(vm: Vm, vn: Vm, sh: Shape, p: Pos, i: nat, f: Frame, t: seq<nat>)
    requires Linked(vm, vn, sh, p, i, f, t)
    ensures |vm.used| == MAX_PAGES && f in vn.mem && |vn.mem[f]| == 512
    ensures forall q | q in sh.at :: sh.at[q] != f && sh.at[q] in vn.mem && |vn.mem[sh.at[q]]| == 512
  {
    hide Present, Huge, FrameOf, SlotOk, RootOk, Wf, TableEntry;
    WfTable(vm, sh, p);
    WfRoot(vm, sh, sh.k);
    forall q | q in sh.at ensures sh.at[q] != f && sh.at[q] in vn.mem && |vn.mem[sh.at[q]]| == 512 {
      WfTable(vm, sh, q);
    }
  }

  lemma LinkedRoot(vm: Vm, vn: Vm, sh: Shape, p: Pos, i: nat, f: Frame, t: seq<nat>, r: Frame)
    requires Linked(vm, vn, sh, p, i, f, t) && sh.Root(r)
    ensures RootOk(WithTable(sh, p, i, f), r)
  {
    EmptySlotIsPrivate(vm, sh, p, i);
    assert RootOk(sh, r);
  }

  lemma LinkedSlot(vm: Vm, vn: Vm, sh: Shape, p: Pos, i: nat, f: Frame, t: seq<nat>, q: Pos, j: nat)
    requires Linked(vm, vn, sh, p, i, f, t)
    requires q in WithTable(sh, p, i, f).at && |q.path| < 3 && j < 512
    ensures SlotOk(vn, WithTable(sh, p, i, f), q, j)
  {
    var sn, c := WithTable(sh, p, i, f), sh.Child(p, i);
    EmptySlotIsPrivate(vm, sh, p, i);
    if q in sh.at { LinkedOldSlot(vm, vn, sh, p, i, f, t, q, j); } else { LinkedNewSlot(vm, vn, sh, p, i, f, t, j); }
  }

  lemma LinkedOldSlot(vm: Vm, vn: Vm, sh: Shape, p: Pos, i: nat, f: Frame, t: seq<nat>, q: Pos, j: nat)
    requires Linked(vm, vn, sh, p, i, f, t) && q in sh.at && |q.path| < 3 && j < 512
    ensures SlotOk(vn, WithTable(sh, p, i, f), q, j)
  {
    hide Present, Huge, FrameOf, Entry, TableEntry, RootOk, TableOk, Wf;
    TableEntryFields(f);
    EmptySlotIsPrivate(vm, sh, p, i);
    LinkedEntry(vm, vn, sh, p, i, f, t, q, j);
    WfSlot(vm, sh, q, j);
    if sh.Child(q, j) == sh.Child(p, i) { EmptySlotIsUnique(vm, sh, p, i, q, j); }
    assert WithTable(sh, p, i, f).Child(q, j) == sh.Child(q, j);
  }

  lemma LinkedNewSlot(vm: Vm, vn: Vm, sh: Shape, p: Pos, i: nat, f: Frame, t: seq<nat>, j: nat)
    requires Linked(vm, vn, sh, p, i, f, t) && |sh.Child(p, i).path| < 3 && j < 512
    ensures SlotOk(vn, WithTable(sh, p, i, f), sh.Child(p, i), j)
  {
    EmptySlotIsPrivate(vm, sh, p, i);
    LinkedEntry(vm, vn, sh, p, i, f, t, p, j);
    assert !Present(0);
    hide Present, Huge, FrameOf, Entry, TableEntry, RootOk, TableOk, Wf;
    var c := sh.Child(p, i);
    assert WithTable(sh, p, i, f).Child(c, j) == sh.Child(c, j);
    if sh.Child(c, j) in sh.at { NoOrphan(vm, sh, p, i, j); }
    assert |sh.Child(c, j).path| == |c.path| + 1;
  }

  lemma NoOrphan(vm: Vm, sh: Shape, p: Pos, i: nat, j: nat)
    requires Wf(vm, sh) && p in sh.at && |p.path| < 3 && i < 512
    requires sh.Child(sh.Child(p, i), j) in sh.at && sh.Child(p, i) == Pos(p.owner, p.path + [i])
    ensures sh.Child(p, i) in sh.at
  {
    hide Present, Huge, FrameOf;
    assert TableOk(vm, sh, p);
    PrefixReached(vm, sh, p.owner, p.path + [i], j);
  }

  /** What a walk finds from a page directory on, and from a PDPT on. */
  ghost function PdView(m: map<Frame, seq<nat>>, g: Frame, va: nat): View {
    var e3 := Entry(m, g, PdIdx(va));
    if !Present(e3) then NotMapped else
    if Huge(e3) then Page2M(e3) else
    var pte := Entry(m, FrameOf(e3), PtIdx(va));
    if !Present(pte) then NotMapped else Page4K(pte)
  }

  ghost function PdptView(m: map<Frame, seq<nat>>, g: Frame, va: nat): View {
    var e2 := Entry(m, g, PdptIdx(va));
    if !Present(e2) then NotMapped else if Huge(e2) then Page1G(e2) else PdView(m, FrameOf(e2), va)
  }

  lemma LookupFrom(m: map<Frame, seq<nat>>, root: Frame, va: nat)
    ensures var e1 := Entry(m, root, Pml4Idx(va));
      Lookup(m, root, va) == if !Present(e1) || Huge(e1) then NotMapped else PdptView(m, FrameOf(e1), va)
  {
    hide Present, Huge, FrameOf, Pml4Idx, PdptIdx, PdIdx, PtIdx, Entry;
  }

  /** The empty table is linked: slot `j` of a table leads where it led, or from nothing to the empty table. */
  lemma LinkedLeads(vm: Vm, vn: Vm, sh: Shape, p: Pos, i: nat, f: Frame, q: Pos, j: nat)
    requires Linked(vm, vn, sh, p, i, f, Zeros()) && !Present(Entry(vm.mem, sh.at[p], i))
    requires q in sh.at && |q.path| < 3 && j < 512
    ensures var e, e' := Entry(vm.mem, sh.at[q], j), Entry(vn.mem, sh.at[q], j);
      && (e' == e || (!Present(e) && Present(e') && !Huge(e') && FrameOf(e') == f))
      && (Present(e) && !Huge(e) ==> sh.Child(q, j) in sh.at && sh.at[sh.Child(q, j)] == FrameOf(e))
    ensures forall n: nat | n < 512 :: !Present(Entry(vn.mem, f, n))
  {
    TableEntryFields(f);
    WfSlot(vm, sh, q, j);
    LinkedEntry(vm, vn, sh, p, i, f, Zeros(), q, j);
    forall n: nat | n < 512 ensures !Present(Entry(vn.mem, f, n)) { LinkedEntry(vm, vn, sh, p, i, f, Zeros(), q, n); }
  }

  lemma LinkedSamePd(vm: Vm, vn: Vm, sh: Shape, p: Pos, i: nat, f: Frame, q: Pos, va: nat)
    requires Linked(vm, vn, sh, p, i, f, Zeros()) && !Present(Entry(vm.mem, sh.at[p], i))
    requires q in sh.at && |q.path| == 2
    ensures PdView(vn.mem, sh.at[q], va) == PdView(vm.mem, sh.at[q], va)
  {
    IndexBounds(va);
    LinkedLeads(vm, vn, sh, p, i, f, q, PdIdx(va));
    hide Present, Huge, FrameOf, PdIdx, PtIdx, Entry, TableEntry, SlotOk, TableOk, RootOk, Wf;
    var c := sh.Child(q, PdIdx(va));
    if c in sh.at { LinkedEntry(vm, vn, sh, p, i, f, Zeros(), c, PtIdx(va)); }
  }

  lemma LinkedSamePdpt(vm: Vm, vn: Vm, sh: Shape, p: Pos, i: nat, f: Frame, q: Pos, va: nat)
    requires Linked(vm, vn, sh, p, i, f, Zeros()) && !Present(Entry(vm.mem, sh.at[p], i))
    requires q in sh.at && |q.path| == 1
    ensures PdptView(vn.mem, sh.at[q], va) == PdptView(vm.mem, sh.at[q], va)
  {
    IndexBounds(va);
    LinkedLeads(vm, vn, sh, p, i, f, q, PdptIdx(va));
    hide Present, Huge, FrameOf, PdptIdx, PdIdx, PtIdx, Entry, TableEntry, SlotOk, TableOk, RootOk, Wf, Linked;
    var c := sh.Child(q, PdptIdx(va));
    if c in sh.at { LinkedSamePd(vm, vn, sh, p, i, f, c, va); }
  }

  lemma LinkedSameView(vm: Vm, vn: Vm, sh: Shape, p: Pos, i: nat, f: Frame, s: Frame, va: nat)
    requires Linked(vm, vn, sh, p, i, f, Zeros()) && sh.Root(s) && !Present(Entry(vm.mem, sh.at[p], i))
    ensures Lookup(vn.mem, s, va) == Lookup(vm.mem, s, va)
  {
    IndexBounds(va);
    RootPlace(vm, sh, s);
    LinkedLeads(vm, vn, sh, p, i, f, Pos(s, []), Pml4Idx(va));
    hide Present, Huge, FrameOf, Pml4Idx, PdptIdx, PdIdx, PtIdx, Entry, TableEntry, SlotOk, TableOk, RootOk, Wf,
      Linked, Lookup, PdView;
    LookupFrom(vm.mem, s, va);
    LookupFrom(vn.mem, s, va);
    var c := sh.Child(Pos(s, []), Pml4Idx(va));
    assert |c.path| == 1;
    if c in sh.at { LinkedSamePdpt(vm, vn, sh, p, i, f, c, va); }
  }

  lemma RootPlace(vm: Vm, sh: Shape, r: Frame)
    requires Wf(vm, sh) && sh.Root(r)
    ensures sh.Reach(r, []) == Pos(r, []) && Pos(r, []) in sh.at && sh.at[Pos(r, [])] == r
  {
    hide Present, Huge, FrameOf, SlotOk, TableOk;
    assert RootOk(sh, r);
  }

  // ---- MapPageInto -------------------------------------------------------------

  ghost predicate SameViews(vm: Vm, vn: Vm, sh: Shape) {
    forall s, va: nat | sh.Root(s) :: Lookup(vn.mem, s, va) == Lookup(vm.mem, s, va)
  }

  ghost predicate Grown(vm: Vm, vn: Vm, sh: Shape, sn: Shape) {
    && sn.k == sh.k && sn.copied == sh.copied
    && (forall p | p in sh.at :: p in sn.at && sn.at[p] == sh.at[p])
    && (forall p | p in sn.at && p !in sh.at :: sn.at[p] in FreeSet(vm.used))
    && FreeSet(vn.used) <= FreeSet(vm.used)
  }

  /** Each new table took one free page, and nothing else was taken. */
  ghost predicate Paid(vm: Vm, vn: Vm, sh: Shape, sn: Shape) {
    |FreeSet(vn.used)| + |sn.at| == |FreeSet(vm.used)| + |sh.at|
  }

  /** The places whose tables a walk to `va` goes through. */
  ghost function PathPlaces(sh: Shape, r: Frame, va: nat): set<Pos> {
    {sh.Reach(r, [Pml4Idx(va)]), sh.Reach(r, [Pml4Idx(va), PdptIdx(va)]), sh.Reach(r, Dir(va))}
  }

  /** No table is added outside the given places. */
  ghost predicate AddedWithin(sh: Shape, sn: Shape, places: set<Pos>) { sn.at.Keys <= sh.at.Keys + places }

  /** A slot that leads to a table led there before, or it was filled with a table that every mode may
      pass and write through: its bits 0 to 2 are set. */
  ghost predicate OpenLink(vm: Vm, sh: Shape, vn: Vm, sn: Shape, q: Pos, j: nat)
    requires q in sn.at
  {
    var e := Entry(vn.mem, sn.at[q], j);
    Leads(e) ==> e % 8 == 7 || (q in sh.at && e == Entry(vm.mem, sh.at[q], j))
  }

  ghost predicate OpenLinks(vm: Vm, sh: Shape, vn: Vm, sn: Shape) {
    forall q, j: nat | q in sn.at && |q.path| < 3 && j < 512 :: OpenLink(vm, sh, vn, sn, q, j)
  }

  lemma TableEntryIsOpen(f: Frame)
    ensures TableEntry(f) % 8 == 7
  {}

  lemma LinkedOpens(vm: Vm, vn: Vm, sh: Shape, p: Pos, i: nat, f: Frame)
    requires Linked(vm, vn, sh, p, i, f, Zeros())
    ensures OpenLinks(vm, sh, vn, WithTable(sh, p, i, f))
  {
    EmptySlotIsPrivate(vm, sh, p, i);
    assert !Leads(0);
    hide Present, Huge, FrameOf, Entry, TableEntry, SlotOk, TableOk, RootOk, Wf, Leads, Linked;
    var sn := WithTable(sh, p, i, f);
    forall q, j: nat | q in sn.at && |q.path| < 3 && j < 512 ensures OpenLink(vm, sh, vn, sn, q, j) {
      TableEntryIsOpen(f);
      LinkedEntry(vm, vn, sh, p, i, f, Zeros(), if q in sh.at then q else p, j) by {
        LinkedHere(vm, vn, sh, p, i, f);
      }
    }
  }

  lemma LinkedHere(vm: Vm, vn: Vm, sh: Shape, p: Pos, i: nat, f: Frame)
    requires Linked(vm, vn, sh, p, i, f, Zeros())
    ensures p in sh.at
  {}

  /** What get_or_alloc on slot `i` of the table at `p` promises. */
  ghost predicate SlotServed(vm: Vm, sh: Shape, p: Pos, i: nat, vn: Vm, o: Option<Frame>, sn: Shape)
    requires p in sh.at
  {
    var e := Entry(vm.mem, sh.at[p], i);
    && Wf(vn, sn) && Grown(vm, vn, sh, sn) && SameViews(vm, vn, sh)
    && (o.Some? ==> sh.Child(p, i) in sn.at && sn.at[sh.Child(p, i)] == o.value)
    && AddedWithin(sh, sn, {sh.Child(p, i)}) && Paid(vm, vn, sh, sn) && OpenLinks(vm, sh, vn, sn)
    && (o.Some? <==> if Present(e) then !Huge(e) else FreeSet(vm.used) != {})
    && (Present(e) || o.None? ==> vn == vm)
    && (!Present(e) && o.Some? ==>
          |FreeSet(vn.used)| == |FreeSet(vm.used)| - 1 && forall j: nat :: Entry(vn.mem, o.value, j) == 0)
  }

  lemma GetOrAllocKeeps(vm: Vm, sh: Shape, p: Pos, i: nat) returns (sn: Shape)
    requires Wf(vm, sh) && p in sh.at && |p.path| < 3 && i < 512
    ensures SlotServed(vm, sh, p, i, GetOrAlloc(vm, sh.at[p], i).0, GetOrAlloc(vm, sh.at[p], i).1, sn)
  {
    GetOrAllocCases(vm, sh.at[p], i);
    WfSlot(vm, sh, p, i);
    hide Present, Huge, FrameOf, TableOk, RootOk, GetOrAlloc, Lookup, FreeSet, Entry, Wf, SlotServed;
    sn := sh;
    if Present(Entry(vm.mem, sh.at[p], i)) || FreeSet(vm.used) == {} {
      UnchangedServes(vm, sh, p, i, GetOrAlloc(vm, sh.at[p], i).1);
    } else {
      var f := FirstFree(vm.used);
      sn := WithTable(sh, p, i, f);
      LinkedServes(vm, GetOrAlloc(vm, sh.at[p], i).0, sh, p, i, f);
    }
  }

  lemma UnchangedServes(vm: Vm, sh: Shape, p: Pos, i: nat, o: Option<Frame>)
    requires Wf(vm, sh) && p in sh.at && SlotOk(vm, sh, p, i)
    requires o.Some? <==> Present(Entry(vm.mem, sh.at[p], i)) && !Huge(Entry(vm.mem, sh.at[p], i))
    requires o.Some? ==> o.value == FrameOf(Entry(vm.mem, sh.at[p], i))
    requires Present(Entry(vm.mem, sh.at[p], i)) || FreeSet(vm.used) == {}
    ensures SlotServed(vm, sh, p, i, vm, o, sh)
  {
    hide Present, Huge, FrameOf, TableOk, RootOk, Lookup, FreeSet, Entry, Wf;
  }

  lemma LinkedServes(vm: Vm, vn: Vm, sh: Shape, p: Pos, i: nat, f: Frame)
    requires Linked(vm, vn, sh, p, i, f, Zeros()) && !Present(Entry(vm.mem, sh.at[p], i))
    ensures SlotServed(vm, sh, p, i, vn, Some(f), WithTable(sh, p, i, f))
  {
    hide Present, Huge, FrameOf, TableOk, SlotOk, RootOk, Lookup, FreeSet, Entry, Wf, SameViews, SetEntry, OpenLinks;
    LinkedOpens(vm, vn, sh, p, i, f);
    LinkedShrinks(vm, vn, sh, p, i, f, Zeros());
    GetOrAllocLinked(vm, vn, sh, p, i, f);
    EmptySlotIsPrivate(vm, sh, p, i);
  }

  lemma LinkedShrinks(vm: Vm, vn: Vm, sh: Shape, p: Pos, i: nat, f: Frame, t: seq<nat>)
    requires Linked(vm, vn, sh, p, i, f, t)
    ensures Wf(vm, sh) && FreeSet(vm.used) != {} && f in FreeSet(vm.used)
    ensures FreeSet(vn.used) <= FreeSet(vm.used) && |FreeSet(vn.used)| == |FreeSet(vm.used)| - 1
  {
    assert f in FreeSet(vm.used) && f < |vm.used|;
    FreeSetUpdate(vm.used, f);
  }

  lemma GetOrAllocCases(vm: Vm, g: Frame, i: nat)
    requires |vm.used| == MAX_PAGES && vm.used[0]
    ensures var e, f := Entry(vm.mem, g, i), FirstFree(vm.used);
      GetOrAlloc(vm, g, i) ==
        if Present(e) then (vm, if Huge(e) then None else Some(FrameOf(e)))
        else if FreeSet(vm.used) == {} then (vm, None)
        else (Vm(SetEntry(vm.mem[f := Zeros()], g, i, TableEntry(f)), vm.used[f := true]), Some(f))
    ensures FreeSet(vm.used) != {} ==> 0 < FirstFree(vm.used) < MAX_PAGES && !vm.used[FirstFree(vm.used)]
  {
    AllocFailsIffExhausted(vm.used);
  }

  lemma GetOrAllocLinked(vm: Vm, vn: Vm, sh: Shape, p: Pos, i: nat, f: Frame)
    requires Linked(vm, vn, sh, p, i, f, Zeros()) && !Present(Entry(vm.mem, sh.at[p], i))
    ensures Wf(vn, WithTable(sh, p, i, f)) && SameViews(vm, vn, sh)
    ensures forall j: nat :: Entry(vn.mem, f, j) == 0
  {
    hide Lookup, Wf, Linked, Entry;
    LinkedWf(vm, vn, sh, p, i, f, Zeros());
    forall s, va: nat | sh.Root(s) ensures Lookup(vn.mem, s, va) == Lookup(vm.mem, s, va) {
      LinkedSameView(vm, vn, sh, p, i, f, s, va);
    }
    forall j: nat ensures Entry(vn.mem, f, j) == 0 { LinkedFacts(vm, vn, sh, p, i, f, j); }
  }

  lemma LinkedFacts(vm: Vm, vn: Vm, sh: Shape, p: Pos, i: nat, f: Frame, j: nat)
    requires Linked(vm, vn, sh, p, i, f, Zeros())
    ensures Entry(vn.mem, f, j) == 0
  {
    LinkedEntry(vm, vn, sh, p, i, f, Zeros(), p, j);
  }

  /** Page tables that MapPageInto must still make to reach `va`. */
  ghost function Missing(m: map<Frame, seq<nat>>, root: Frame, va: nat): nat {
    var e1 := Entry(m, root, Pml4Idx(va));
    if !Present(e1) then 3 else
    var e2 := Entry(m, FrameOf(e1), PdptIdx(va));
    if !Present(e2) then 2 else
    var e3 := Entry(m, FrameOf(e2), PdIdx(va));
    if !Present(e3) then 1 else 0
  }

  ghost predicate CoveredByHugePage(m: map<Frame, seq<nat>>, root: Frame, va: nat) {
    Lookup(m, root, va).Page1G? || Lookup(m, root, va).Page2M?
  }

  /** The shape holds again, has only grown, by tables that are open, and no translation changed. */
  ghost predicate Evolves(vm: Vm, sh: Shape, vn: Vm, sn: Shape) {
    Wf(vn, sn) && Grown(vm, vn, sh, sn) && Paid(vm, vn, sh, sn) && SameViews(vm, vn, sh) && OpenLinks(vm, sh, vn, sn)
  }

  lemma OpenLinksTrans(v0: Vm, s0: Shape, v1: Vm, s1: Shape, v2: Vm, s2: Shape)
    requires OpenLinks(v0, s0, v1, s1) && OpenLinks(v1, s1, v2, s2)
    ensures OpenLinks(v0, s0, v2, s2)
  {
    hide Entry, Leads;
    forall q, j: nat | q in s2.at && |q.path| < 3 && j < 512 ensures OpenLink(v0, s0, v2, s2, q, j) {
      assert OpenLink(v1, s1, v2, s2, q, j);
      if q in s1.at { assert OpenLink(v0, s0, v1, s1, q, j); }
    }
  }

  lemma EvolvesTrans(v0: Vm, s0: Shape, v1: Vm, s1: Shape, v2: Vm, s2: Shape)
    requires Evolves(v0, s0, v1, s1) && Evolves(v1, s1, v2, s2)
    ensures Evolves(v0, s0, v2, s2)
  {
    hide Lookup, Wf, FreeSet, OpenLinks;
    OpenLinksTrans(v0, s0, v1, s1, v2, s2);
  }

  /** One descent as part of a longer operation. */
  lemma Descend(v0: Vm, s0: Shape, vm: Vm, sh: Shape, p: Pos, i: nat) returns (sn: Shape)
    requires Evolves(v0, s0, vm, sh) && p in sh.at && |p.path| < 3 && i < 512
    ensures var (vn, o) := GetOrAlloc(vm, sh.at[p], i);
      && Evolves(v0, s0, vn, sn)
      && (o.Some? ==> sh.Child(p, i) in sn.at && sn.at[sh.Child(p, i)] == o.value)
    ensures sn.k == sh.k && sn.copied == sh.copied && sh.at.Keys <= sn.at.Keys && AddedWithin(sh, sn, {sh.Child(p, i)})
  {
    sn := GetOrAllocKeeps(vm, sh, p, i);
    hide Lookup, Wf, FreeSet, GetOrAlloc, Entry, Present, Huge, SameViews, OpenLinks;
    EvolvesTrans(v0, s0, vm, sh, GetOrAlloc(vm, sh.at[p], i).0, sn);
  }

  /** The descents of MapPageInto keep the shape and every translation, and end at the page table
      for `va`. */
  lemma PageTableForKeeps(vm: Vm, sh: Shape, r: Frame, va: nat) returns (sn: Shape)
    requires Wf(vm, sh) && sh.Root(r)
    ensures Evolves(vm, sh, PageTableFor(vm, r, va).0, sn) && AddedWithin(sh, sn, PathPlaces(sh, r, va))
    ensures PageTableFor(vm, r, va).1.Some? ==> PathPlaces(sh, r, va) <= sn.at.Keys
    ensures var (vn, o) := PageTableFor(vm, r, va);
            o.Some? ==> LeafTable(vn.mem, r, va) == o
  {
    var a, b, c := Pml4Idx(va), PdptIdx(va), PdIdx(va);
    var o3 := PageTableFor(vm, r, va).1;
    sn := ThreeDescents(vm, sh, r, a, b, c, va);
    if o3.Some? {
      hide Present, Huge, FrameOf, SlotOk, TableOk, RootOk, LeafTable, GetOrAlloc;
      WalkPlaces(PageTableFor(vm, r, va).0, sn, r, va);
    }
  }

  lemma ThreeDescents(vm: Vm, sh: Shape, r: Frame, a: nat, b: nat, c: nat, va: nat) returns (sn: Shape)
    requires Wf(vm, sh) && sh.Root(r) && a == Pml4Idx(va) && b == PdptIdx(va) && c == PdIdx(va)
    ensures Evolves(vm, sh, PageTableFor(vm, r, va).0, sn) && AddedWithin(sh, sn, PathPlaces(sh, r, va))
    ensures PageTableFor(vm, r, va).1.Some? ==> PathPlaces(sh, r, va) <= sn.at.Keys
    ensures var o := PageTableFor(vm, r, va).1;
            o.Some? ==> sn.Reach(r, Dir(va)) in sn.at && sn.at[sn.Reach(r, Dir(va))] == o.value
  {
    hide Pml4Idx, PdptIdx, PdIdx, GetOrAlloc, Evolves, Wf, Dir, Shape.Child, Shape.Reach;
    DirPlaces(vm, sh, r, va);
    sn := Descend(vm, sh, vm, sh, Pos(r, []), a);
    var (v1, o1) := GetOrAlloc(vm, r, a);
    if o1.Some? {
      sn := Descend(vm, sh, v1, sn, sh.Reach(r, [a]), b);
      var (v2, o2) := GetOrAlloc(v1, o1.value, b);
      if o2.Some? {
        sn := Descend(vm, sh, v2, sn, sh.Reach(r, [a, b]), c);
      }
    }
  }

  /** The places on the way to the page table for `va`, and that they depend on `k` and `copied` only. */
  lemma DirPlaces(vm: Vm, sh: Shape, r: Frame, va: nat)
    requires Wf(vm, sh) && sh.Root(r)
    ensures var a, b, c := Pml4Idx(va), PdptIdx(va), PdIdx(va);
      && a < 512 && b < 512 && c < 512
      && Pos(r, []) in sh.at && sh.at[Pos(r, [])] == r && Evolves(vm, sh, vm, sh)
      && |sh.Reach(r, [a]).path| == 1 && |sh.Reach(r, [a, b]).path| == 2
      && forall sn: Shape | sn.k == sh.k && sn.copied == sh.copied ::
           && sn.Child(Pos(r, []), a) == sh.Reach(r, [a])
           && sn.Child(sh.Reach(r, [a]), b) == sh.Reach(r, [a, b])
           && sn.Child(sh.Reach(r, [a, b]), c) == sh.Reach(r, Dir(va))
           && sn.Reach(r, Dir(va)) == sh.Reach(r, Dir(va))
  {
    hide Wf, Entry, Leads, Pml4Idx, PdptIdx, PdIdx, Lookup, FreeSet;
    var a, b, c := Pml4Idx(va), PdptIdx(va), PdIdx(va);
    IndexBounds(va);
    RootPlace(vm, sh, r);
    assert [] + [a] == [a] && [a] + [b] == [a, b] && [a, b] + [c] == Dir(va);
  }

  /** One descent, reduced to what decides whether the next one succeeds. */
  lemma GetOrAllocFresh(vm: Vm, g: Frame, i: nat)
    requires |vm.used| == MAX_PAGES && vm.used[0] && g < |vm.used| && vm.used[g]
    requires !Present(Entry(vm.mem, g, i)) && FreeSet(vm.used) != {}
    ensures var (vn, o) := GetOrAlloc(vm, g, i);
      && o.Some? && |vn.used| == MAX_PAGES && vn.used[0] && o.value < MAX_PAGES && vn.used[o.value]
      && |FreeSet(vn.used)| == |FreeSet(vm.used)| - 1
      && forall j: nat :: !Present(Entry(vn.mem, o.value, j))
  {
    GetOrAllocCases(vm, g, i);
    FreeSetUpdate(vm.used, FirstFree(vm.used));
    hide GetOrAlloc, FreeSet, TableEntry;
  }

  /** Which places of a path have tables, in terms of the entries on it. */
  lemma PathTables(vm: Vm, sh: Shape, r: Frame, va: nat)
    requires Wf(vm, sh) && sh.Root(r)
    ensures var a, b, c := Pml4Idx(va), PdptIdx(va), PdIdx(va);
      var e1 := Entry(vm.mem, r, a);
      var e2 := Entry(vm.mem, FrameOf(e1), b);
      var e3 := Entry(vm.mem, FrameOf(e2), c);
      && (sh.Reach(r, [a]) in sh.at <==> Present(e1)) && (Present(e1) ==> !Huge(e1))
      && (sh.Reach(r, [a, b]) in sh.at <==> Present(e1) && Leads(e2))
      && (sh.Reach(r, Dir(va)) in sh.at <==> Present(e1) && Leads(e2) && Leads(e3))
  {
    hide Present, Huge, FrameOf, Pml4Idx, PdptIdx, PdIdx, Entry, TableOk, RootOk, Wf;
    var a, b, c := Pml4Idx(va), PdptIdx(va), PdIdx(va);
    var p1, p2, p3 := sh.Reach(r, [a]), sh.Reach(r, [a, b]), sh.Reach(r, Dir(va));
    DirPlaces(vm, sh, r, va);
    WfSlot(vm, sh, Pos(r, []), a);
    assert [a, b] == [a] + [b] && Dir(va) == [a, b] + [c];
    if p2 in sh.at { PrefixReached(vm, sh, r, [a], b); }
    if p3 in sh.at { PrefixReached(vm, sh, r, [a, b], c); }
    if p1 in sh.at { WfSlot(vm, sh, p1, b); }
    if p2 in sh.at { WfSlot(vm, sh, p2, c); }
  }

  lemma PathRest(sh: Shape, r: Frame, va: nat)
    ensures var p1, p2, p3 :=
        sh.Reach(r, [Pml4Idx(va)]), sh.Reach(r, [Pml4Idx(va), PdptIdx(va)]), sh.Reach(r, Dir(va));
      |PathPlaces(sh, r, va) - sh.at.Keys|
        == (if p1 in sh.at then 0 else 1) + (if p2 in sh.at then 0 else 1) + (if p3 in sh.at then 0 else 1)
  {
    hide Pml4Idx, PdptIdx, PdIdx;
    var p1, p2, p3 :=
      sh.Reach(r, [Pml4Idx(va)]), sh.Reach(r, [Pml4Idx(va), PdptIdx(va)]), sh.Reach(r, Dir(va));
    assert |p1.path| == 1 && |p2.path| == 2 && |p3.path| == 3;
    assert PathPlaces(sh, r, va) == {p1, p2, p3};
    ThreeLess(p1, p2, p3, sh.at.Keys);
  }

  lemma ThreeLess(p1: Pos, p2: Pos, p3: Pos, k: set<Pos>)
    requires p1 != p2 && p1 != p3 && p2 != p3
    ensures |{p1, p2, p3} - k| == (if p1 in k then 0 else 1) + (if p2 in k then 0 else 1) + (if p3 in k then 0 else 1)
  {
    OnlyLess(p1, k);
    PairOf(p1, p2);
    OneMoreLess({p1}, p2, k);
    TripleOf(p1, p2, p3);
    OneMoreLess({p1, p2}, p3, k);
  }

  lemma OnlyLess(p: Pos, k: set<Pos>)
    ensures |{p} - k| == if p in k then 0 else 1
  {
    assert {p} - k == if p in k then {} else {p};
  }

  lemma PairOf(p: Pos, q: Pos)
    ensures {p} + {q} == {p, q}
  {}

  lemma TripleOf(p: Pos, q: Pos, r: Pos)
    ensures {p, q} + {r} == {p, q, r}
  {}

  lemma OneMoreLess(s: set<Pos>, p: Pos, k: set<Pos>)
    requires p !in s
    ensures |(s + {p}) - k| == |s - k| + (if p in k then 0 else 1)
  {
    assert (s + {p}) - k == if p in k then s - k else (s - k) + {p};
  }

  /** The tables that are missing are those at places of the path that have none. */
  lemma MissingPlaces(vm: Vm, sh: Shape, r: Frame, va: nat)
    requires Wf(vm, sh) && sh.Root(r) && !CoveredByHugePage(vm.mem, r, va)
    ensures Missing(vm.mem, r, va) == |PathPlaces(sh, r, va) - sh.at.Keys|
  {
    hide Present, Huge, FrameOf, Pml4Idx, PdptIdx, PdIdx, PtIdx, Entry, Wf, PathPlaces;
    PathTables(vm, sh, r, va);
    PathRest(sh, r, va);
  }

  lemma CoveredCases(m: map<Frame, seq<nat>>, r: Frame, va: nat)
    ensures var e1 := Entry(m, r, Pml4Idx(va));
      var e2 := Entry(m, FrameOf(e1), PdptIdx(va));
      var e3 := Entry(m, FrameOf(e2), PdIdx(va));
      CoveredByHugePage(m, r, va) ==
      (Present(e1) && !Huge(e1) && Present(e2) && (Huge(e2) || (Present(e3) && Huge(e3))))
  {
    hide Present, Huge, FrameOf, Entry, Pml4Idx, PdptIdx, PdIdx, PtIdx;
  }

  lemma PageTableForSucceeds(vm: Vm, sh: Shape, r: Frame, va: nat)
    requires Wf(vm, sh) && sh.Root(r)
    ensures PageTableFor(vm, r, va).1.Some? <==>
      !CoveredByHugePage(vm.mem, r, va) && Missing(vm.mem, r, va) <= |FreeSet(vm.used)|
  {
    RootFacts(vm, sh, r, va);
    hide Present, Huge, FrameOf, FreeSet, Entry, GetOrAlloc, Pml4Idx, PdptIdx, PdIdx, Wf, CoveredByHugePage;
    CoveredCases(vm.mem, r, va);
    var e1 := Entry(vm.mem, r, Pml4Idx(va));
    var e2 := Entry(vm.mem, FrameOf(e1), PdptIdx(va));
    GetOrAllocCases(vm, r, Pml4Idx(va));
    if !Present(e1) {
      SucceedsFromRoot(vm, r, va);
    } else {
      GetOrAllocCases(vm, FrameOf(e1), PdptIdx(va));
      if Present(e2) {
        GetOrAllocCases(vm, FrameOf(e2), PdIdx(va));
        assert |FreeSet(vm.used)| == 0 <==> FreeSet(vm.used) == {};
      } else {
        SucceedsFrom(vm, FrameOf(e1), PdptIdx(va), PdIdx(va));
      }
    }
  }

  lemma RootFacts(vm: Vm, sh: Shape, r: Frame, va: nat)
    requires Wf(vm, sh) && sh.Root(r)
    ensures |vm.used| == MAX_PAGES && vm.used[0] && r < |vm.used| && vm.used[r]
    ensures var e := Entry(vm.mem, r, Pml4Idx(va));
            Present(e) ==> !Huge(e) && FrameOf(e) < |vm.used| && vm.used[FrameOf(e)]
  {
    RootPlace(vm, sh, r);
    IndexBounds(va);
    WfSlot(vm, sh, Pos(r, []), Pml4Idx(va));
    assert TableOk(vm, sh, Pos(r, []));
    if Present(Entry(vm.mem, r, Pml4Idx(va))) { WalkUsed(vm, sh, r, va); }
  }

  lemma WalkUsed(vm: Vm, sh: Shape, r: Frame, va: nat)
    requires Wf(vm, sh) && sh.Root(r) && Present(Entry(vm.mem, r, Pml4Idx(va)))
    ensures var f := FrameOf(Entry(vm.mem, r, Pml4Idx(va))); f < |vm.used| && vm.used[f]
  {
    IndexBounds(va);
    RootPlace(vm, sh, r);
    WfSlot(vm, sh, Pos(r, []), Pml4Idx(va));
    hide Present, Huge, FrameOf, Pml4Idx, Entry, RootOk;
    assert TableOk(vm, sh, sh.Child(Pos(r, []), Pml4Idx(va)));
  }

  /** Two tables to make, starting from slot `i` of `g`. */
  lemma SucceedsFrom(vm: Vm, g: Frame, i: nat, j: nat)
    requires |vm.used| == MAX_PAGES && vm.used[0] && g < |vm.used| && vm.used[g]
    requires !Present(Entry(vm.mem, g, i))
    ensures var (v2, pd) := GetOrAlloc(vm, g, i);
      (pd.Some? && GetOrAlloc(v2, pd.value, j).1.Some?) <==> 2 <= |FreeSet(vm.used)|
  {
    hide Present, Huge, FrameOf, FreeSet, Entry, GetOrAlloc;
    GetOrAllocCases(vm, g, i);
    if FreeSet(vm.used) != {} {
      GetOrAllocFresh(vm, g, i);
      var (v2, pd) := GetOrAlloc(vm, g, i);
      GetOrAllocCases(v2, pd.value, j);
      assert |FreeSet(v2.used)| == 0 <==> FreeSet(v2.used) == {};
    }
  }

  lemma SucceedsFromRoot(vm: Vm, r: Frame, va: nat)
    requires |vm.used| == MAX_PAGES && vm.used[0] && r < |vm.used| && vm.used[r]
    requires !Present(Entry(vm.mem, r, Pml4Idx(va)))
    ensures PageTableFor(vm, r, va).1.Some? <==> 3 <= |FreeSet(vm.used)|
  {
    hide Present, Huge, FrameOf, FreeSet, Entry, GetOrAlloc, Pml4Idx, PdptIdx, PdIdx;
    GetOrAllocCases(vm, r, Pml4Idx(va));
    if FreeSet(vm.used) != {} {
      GetOrAllocFresh(vm, r, Pml4Idx(va));
      var (v1, pdpt) := GetOrAlloc(vm, r, Pml4Idx(va));
      SucceedsFrom(v1, pdpt.value, PdptIdx(va), PdIdx(va));
      var (v2, pd) := GetOrAlloc(v1, pdpt.value, PdptIdx(va));
      assert (pd.Some? && GetOrAlloc(v2, pd.value, PdIdx(va)).1.Some?) <==> 2 <= |FreeSet(v1.used)|;
      assert PageTableFor(vm, r, va).1.Some? <==> (pd.Some? && GetOrAlloc(v2, pd.value, PdIdx(va)).1.Some?);
      assert |FreeSet(v1.used)| == |FreeSet(vm.used)| - 1;
    } else {
      assert GetOrAlloc(vm, r, Pml4Idx(va)).1.None?;
    }
  }

  /** Writing a leaf leaves the directories alone. */
  lemma LeafWriteOpens(vm: Vm, vn: Vm, sh: Shape, p: Pos, i: nat, pte: nat)
    requires Wf(vm, sh) && p in sh.at && |p.path| == 3
    requires vn == vm.(mem := SetEntry(vm.mem, sh.at[p], i, pte))
    ensures OpenLinks(vm, sh, vn, sh)
  {
    hide Leads, SlotOk, RootOk, TableOk;
    forall q, j: nat | q in sh.at && |q.path| < 3 && j < 512 ensures OpenLink(vm, sh, vn, sh, q, j) {
      assert sh.at[q] != sh.at[p];
    }
  }

  /** The raw entry that a walk ends at, if it is a 4 KB page's. */
  lemma RawEntry(m: map<Frame, seq<nat>>, r: Frame, va: nat, pte: nat)
    requires Present(pte) && Lookup(m, r, va) == LeafView(pte)
    ensures GetPteInto(m, r, va) == pte
  {
    hide Lookup, GetPteInto;
    GetPteIntoAgrees(m, r, va);
  }

  lemma LeafEntryIs(phys: nat, flags: nat)
    requires FrameOf(flags) == 0
    ensures LeafEntry(phys, flags) == phys / 4096 % 0x100_0000_0000 * 4096 + flags + 1 - flags % 2
  {}

  /** MapPageInto succeeds exactly when no huge page covers `va` and the missing tables fit in free
      memory; then the page of `va` shows the new entry and every other page of every address space
      is as before, and on failure no page changed.  The new entry has the frame of `phys`, the flags
      asked for, and the present bit; new tables are open.  The shape holds either way. */
  lemma MapPageIntoExact(vm: Vm, sh: Shape, r: Frame, va: nat, phys: nat, flags: nat) returns (sn: Shape)
    requires Wf(vm, sh) && sh.Root(r) && FrameOf(flags) == 0
    ensures var (vn, ok) := MapPageInto(vm, r, va, phys, flags);
      && Wf(vn, sn) && Grown(vm, vn, sh, sn) && Paid(vm, vn, sh, sn) && AddedWithin(sh, sn, PathPlaces(sh, r, va))
      && (ok ==> PathPlaces(sh, r, va) <= sn.at.Keys)
      && (ok <==> !CoveredByHugePage(vm.mem, r, va) && Missing(vm.mem, r, va) <= |FreeSet(vm.used)|)
      && (if ok then LeafChanged(vm, vn, sh, r, va, LeafEntry(phys, flags)) else SameViews(vm, vn, sh))
      && (ok ==> GetPteInto(vn.mem, r, va) == phys / 4096 % 0x100_0000_0000 * 4096 + flags + 1 - flags % 2)
      && OpenLinks(vm, sh, vn, sn)
  {
    hide Wf, Present, FrameOf, Lookup, Pml4Idx, PdptIdx, PdIdx, PtIdx, PageTableFor, LeafEntry, FreeSet, OpenLinks,
      GetPteInto, SamePage, SetEntry;
    sn := PageTableForKeeps(vm, sh, r, va);
    PageTableForSucceeds(vm, sh, r, va);
    var (v, pt) := PageTableFor(vm, r, va);
    if pt.Some? { LeafMapped(vm, sh, v, sn, r, va, phys, flags); }
  }

  /** The last step of MapPageInto: the entry is written to the page table that was reached. */
  lemma LeafMapped(vm: Vm, sh: Shape, v: Vm, sn: Shape, r: Frame, va: nat, phys: nat, flags: nat)
    requires Evolves(vm, sh, v, sn) && sn.Root(r) && LeafTable(v.mem, r, va).Some? && FrameOf(flags) == 0
    ensures var vn := v.(mem := SetEntry(v.mem, LeafTable(v.mem, r, va).value, PtIdx(va), LeafEntry(phys, flags)));
      && Wf(vn, sn) && LeafChanged(vm, vn, sh, r, va, LeafEntry(phys, flags)) && OpenLinks(vm, sh, vn, sn)
      && GetPteInto(vn.mem, r, va) == phys / 4096 % 0x100_0000_0000 * 4096 + flags + 1 - flags % 2
  {
    hide Wf, Present, FrameOf, Lookup, Pml4Idx, PdptIdx, PdIdx, PtIdx, LeafEntry, FreeSet, OpenLinks, GetPteInto,
      SetEntry, LeafTable;
    var pte := LeafEntry(phys, flags);
    var vn := v.(mem := SetEntry(v.mem, LeafTable(v.mem, r, va).value, PtIdx(va), pte));
    LeafWrite(v, sn, r, va, pte);
    WalkPlaces(v, sn, r, va);
    LeafWriteOpens(v, vn, sn, sn.Reach(r, Dir(va)), PtIdx(va), pte);
    OpenLinksTrans(vm, sh, v, sn, vn, sn);
    LeafEntryFields(phys, flags);
    LeafEntryIs(phys, flags);
    assert SamePage(va, va) && Lookup(vn.mem, r, va) == LeafView(pte);
    RawEntry(vn.mem, r, va, pte);
  }

  /** In terms of addresses: the page translates to the new frame plus the offset. */
  lemma MapPageIntoTranslates(vm: Vm, sh: Shape, r: Frame, va: nat, phys: nat, flags: nat, vb: nat)
    requires Wf(vm, sh) && sh.Root(r) && FrameOf(flags) == 0 && MapPageInto(vm, r, va, phys, flags).1
    ensures Translate(MapPageInto(vm, r, va, phys, flags).0.mem, r, vb) ==
      if SamePage(va, vb) then FrameOf(phys) * 4096 + vb % 4096 else Translate(vm.mem, r, vb)
  {
    hide Wf, Lookup, Translate, MapPageInto, LeafEntry, FrameOf, Present, Pml4Idx, PdptIdx, PdIdx, PtIdx, PathPlaces,
      AddedWithin, Paid, Grown, Missing, CoveredByHugePage, FreeSet, LeafView, SamePage;
    var sn := MapPageIntoExact(vm, sh, r, va, phys, flags);
    var vn := MapPageInto(vm, r, va, phys, flags).0;
    LeafEntryFields(phys, flags);
    if SamePage(va, vb) {
      LeafTranslates(vn.mem, r, vb, LeafEntry(phys, flags));
    } else {
      assert Lookup(vn.mem, r, vb) == Lookup(vm.mem, r, vb);
      SameLookupTranslates(vm.mem, vn.mem, r, vb);
    }
  }

  lemma LeafTranslates(m: map<Frame, seq<nat>>, r: Frame, va: nat, pte: nat)
    requires Present(pte) && Lookup(m, r, va) == LeafView(pte)
    ensures Translate(m, r, va) == FrameOf(pte) * 4096 + va % 4096
  {
    hide Lookup, Present, FrameOf;
  }

  lemma SameLookupTranslates(m: map<Frame, seq<nat>>, n: map<Frame, seq<nat>>, r: Frame, va: nat)
    requires Lookup(n, r, va) == Lookup(m, r, va)
    ensures Translate(n, r, va) == Translate(m, r, va)
  {
    hide Lookup, FrameOf;
  }

  /** ProtectPageInto keeps the frame and changes the flags of exactly one mapped 4 KB page. */
  lemma ProtectPageIntoExact(vm: Vm, sh: Shape, r: Frame, va: nat, flags: nat)
    requires Wf(vm, sh) && sh.Root(r) && FrameOf(flags) == 0
    ensures var (vn, ok) := ProtectPageInto(vm, r, va, flags);
      && Wf(vn, sh) && vn.used == vm.used
      && (ok <==> Lookup(vm.mem, r, va).Page4K?)
      && (if ok then LeafChanged(vm, vn, sh, r, va, LeafEntry(Lookup(vm.mem, r, va).pte, flags)) else vn == vm)
      && (ok ==> GetPteInto(vn.mem, r, va) ==
                 GetPteInto(vm.mem, r, va) / 4096 % 0x100_0000_0000 * 4096 + flags + 1 - flags % 2)
      && OpenLinks(vm, sh, vn, sh)
  {
    LookupLeaf(vm.mem, r, va);
    HugeHasNoLeaf(vm.mem, r, va);
    GetPteIntoAgrees(vm.mem, r, va);
    NoLinks(vm, sh);
    hide Wf, Present, FrameOf, Lookup, LeafTable, Pml4Idx, PdptIdx, PdIdx, PtIdx, LeafEntry, OpenLinks, GetPteInto,
      SamePage;
    if LeafTable(vm.mem, r, va).Some? && ProtectPageInto(vm, r, va, flags).1 {
      EvolvesFromItself(vm, sh);
      LeafMapped(vm, sh, vm, sh, r, va, Lookup(vm.mem, r, va).pte, flags);
    }
  }

  lemma NoLinks(vm: Vm, sh: Shape)
    ensures OpenLinks(vm, sh, vm, sh)
  {
    hide Leads, Entry;
  }

  lemma EvolvesFromItself(vm: Vm, sh: Shape)
    requires Wf(vm, sh)
    ensures Evolves(vm, sh, vm, sh)
  {
    hide Wf, Lookup, FreeSet, OpenLinks;
    NoLinks(vm, sh);
  }

  lemma HugeHasNoLeaf(m: map<Frame, seq<nat>>, r: Frame, va: nat)
    ensures LeafTable(m, r, va).None? ==> !Lookup(m, r, va).Page4K?
  {}

  /** UnmapPageFrom makes exactly one page unmapped, unless a huge page or no table covers it. */
  lemma UnmapPageFromExact(vm: Vm, sh: Shape, r: Frame, va: nat)
    requires Wf(vm, sh) && sh.Root(r)
    ensures var vn := UnmapPageFrom(vm, r, va);
      && Wf(vn, sh) && vn.used == vm.used
      && (if Lookup(vm.mem, r, va).Page4K? then LeafChanged(vm, vn, sh, r, va, 0) else SameViews(vm, vn, sh))
      && OpenLinks(vm, sh, vn, sh)
  {
    LookupLeaf(vm.mem, r, va);
    HugeHasNoLeaf(vm.mem, r, va);
    assert LeafView(0) == NotMapped;
    NoLinks(vm, sh);
    hide Wf, Present, FrameOf, Lookup, LeafTable, Pml4Idx, PdptIdx, PdIdx, PtIdx, OpenLinks;
    if LeafTable(vm.mem, r, va).Some? {
      LeafWrite(vm, sh, r, va, 0);
      WalkPlaces(vm, sh, r, va);
      LeafWriteOpens(vm, UnmapPageFrom(vm, r, va), sh, sh.Reach(r, Dir(va)), PtIdx(va), 0);
      if !Lookup(vm.mem, r, va).Page4K? {
        forall s, vb: nat | sh.Root(s)
          ensures Lookup(UnmapPageFrom(vm, r, va).mem, s, vb) == Lookup(vm.mem, s, vb)
        {
          if SamePage(va, vb) && sh.Owner(s, Dir(va)) == sh.Owner(r, Dir(va)) {
            SamePlaceSameView(vm, sh, r, s, va, vb);
          }
        }
      }
    }
  }

  lemma SamePlaceSameView(vm: Vm, sh: Shape, r: Frame, s: Frame, va: nat, vb: nat)
    requires Wf(vm, sh) && sh.Root(r) && sh.Root(s)
    requires SamePage(va, vb) && sh.Owner(s, Dir(va)) == sh.Owner(r, Dir(va)) && LeafTable(vm.mem, r, va).Some?
    ensures Lookup(vm.mem, s, vb) == Lookup(vm.mem, r, va)
  {
    hide Wf, Present, FrameOf, Lookup, LeafTable, Pml4Idx, PdptIdx, PdIdx, PtIdx;
    WalkPlaces(vm, sh, r, va);
    WalkPlaces(vm, sh, s, vb);
    LookupLeaf(vm.mem, r, va);
    LookupLeaf(vm.mem, s, vb);
  }

  /** The raw entry GetPteInto reports is the one the walk uses. */
  lemma GetPteIntoAgrees(m: map<Frame, seq<nat>>, r: Frame, va: nat)
    ensures Lookup(m, r, va).Page4K? <==> Present(GetPteInto(m, r, va))
    ensures Lookup(m, r, va).Page4K? ==> Lookup(m, r, va).pte == GetPteInto(m, r, va)
  {}
}
