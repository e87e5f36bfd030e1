/** Which pages user mode reaches and which may be written.  Intel SDM Vol. 3A, section 4.6: a bit of
    the entry of a page counts only if every entry on the way to it has the bit too. */
module AccessRights {
  import PmmSpec
  import opened PageTables
  import opened Wrappers
  import opened AddressSpaces

  const WRITE: nat := 2
  const USER: nat := 4

  predicate Has(e: nat, bit: nat)
    requires bit > 0
  {
    e / bit % 2 == 1
  }

  /** Every entry that a walk to `va` uses has the bit. */
  predicate Granted(m: map<Frame, seq<nat>>, root: Frame, va: nat, bit: nat)
    requires bit > 0
  {
    var e1 := Entry(m, root, Pml4Idx(va));
    var e2 := Entry(m, FrameOf(e1), PdptIdx(va));
    var e3 := Entry(m, FrameOf(e2), PdIdx(va));
    match Lookup(m, root, va)
    case NotMapped => false
    case Page1G(e) => Has(e1, bit) && Has(e, bit)
    case Page2M(e) => Has(e1, bit) && Has(e2, bit) && Has(e, bit)
    case Page4K(e) => Has(e1, bit) && Has(e2, bit) && Has(e3, bit) && Has(e, bit)
  }

  // ---- Low bits -----------------------------------------------------------------------------

  lemma Half(e: nat, k: nat, b: nat)
    requires e == 2 * k + b && b < 2
    ensures e / 2 == k && e % 2 == b
  {}

  lemma Fourth(e: nat, k: nat, b: nat)
    requires e == 4 * k + b && b < 4
    ensures e / 4 == k
  {}

  /** Bits 0 to 2 of a number are those of its remainder by 8. */
  lemma LowThree(e: nat, k: nat, r: nat)
    requires e == 8 * k + r && r < 8
    ensures Present(e) <==> r % 2 == 1
    ensures Has(e, WRITE) <==> r / 2 % 2 == 1
    ensures Has(e, USER) <==> r >= 4
  {
    var h, b := r / 2, r % 2;
    var u, c := h / 2, h % 2;
    assert r == 4 * u + 2 * c + b && u < 2;
    Half(e, 4 * k + h, b);
    Half(4 * k + h, 2 * k + u, c);
    Fourth(e, 2 * k + u, 2 * c + b);
    Half(2 * k + u, k, u);
  }

  // ---- Private pages ------------------------------------------------------------------------

  lemma OpenHas(e: nat, bit: nat)
    requires e % 8 == 7 && (bit == WRITE || bit == USER)
    ensures Has(e, bit)
  {
    hide Has;
    LowThree(e, e / 8, 7);
  }

  lemma SmallGranted(m: map<Frame, seq<nat>>, root: Frame, va: nat, bit: nat)
    requires bit > 0 && Lookup(m, root, va).Page4K?
    ensures var e1 := Entry(m, root, Pml4Idx(va));
      var e2 := Entry(m, FrameOf(e1), PdptIdx(va));
      var e3 := Entry(m, FrameOf(e2), PdIdx(va));
      Granted(m, root, va, bit) <==>
        Has(e1, bit) && Has(e2, bit) && Has(e3, bit) && Has(GetPteInto(m, root, va), bit)
  {
    hide Lookup, Entry, FrameOf, Has, Pml4Idx, PdptIdx, PdIdx, GetPteInto;
    GetPteIntoAgrees(m, root, va);
  }

  /** The directory entries on the way to a private page are open. */
  lemma OpenPath(vm: Vm, sh: Shape, r: Frame, va: nat)
    requires Wf(vm, sh) && PathsOpen(vm.mem, sh) && r in sh.copied && !sh.Shared(r, Dir(va))
    requires sh.Reach(r, Dir(va)) in sh.at
    ensures var e1 := Entry(vm.mem, r, Pml4Idx(va));
      var e2 := Entry(vm.mem, FrameOf(e1), PdptIdx(va));
      var e3 := Entry(vm.mem, FrameOf(e2), PdIdx(va));
      e1 % 8 == 7 && e2 % 8 == 7 && e3 % 8 == 7
  {
    hide Wf, Entry, Present, Huge, FrameOf, Pml4Idx, PdptIdx, PdIdx, PathsOpen, TableOk, RootOk;
    var a, b, c := Pml4Idx(va), PdptIdx(va), PdIdx(va);
    DirPlaces(vm, sh, r, va);
    WfRoots(Machine(vm, sh));
    assert Dir(va)[0] == a && Dir(va)[1] == b && [a, b] + [c] == Dir(va) && [a] + [b] == [a, b];
    assert !sh.Shared(r, [a]) && !sh.Shared(r, [a, b]);
    PrefixReached(vm, sh, r, [a, b], c);
    PrefixReached(vm, sh, r, [a], b);
    WfSlot(vm, sh, Pos(r, []), a);
    WfSlot(vm, sh, sh.Reach(r, [a]), b);
    WfSlot(vm, sh, sh.Reach(r, [a, b]), c);
    PathIsOpen(vm.mem, sh, Pos(r, []), a);
    PathIsOpen(vm.mem, sh, sh.Reach(r, [a]), b);
    PathIsOpen(vm.mem, sh, sh.Reach(r, [a, b]), c);
  }

  /** The rights of a private page are those of its own entry. */
  lemma PrivateRights(vm: Vm, sh: Shape, r: Frame, va: nat, bit: nat)
    requires Wf(vm, sh) && PathsOpen(vm.mem, sh) && r in sh.copied && !sh.Shared(r, Dir(va))
    requires Lookup(vm.mem, r, va).Page4K? && (bit == WRITE || bit == USER)
    ensures Granted(vm.mem, r, va, bit) <==> Has(GetPteInto(vm.mem, r, va), bit)
  {
    hide Wf, PathsOpen, Lookup, Entry, FrameOf, Pml4Idx, PdptIdx, PdIdx, Granted, Has, GetPteInto, LeafTable;
    WalkPlaces(vm, sh, r, va);
    HugeHasNoLeaf(vm.mem, r, va);
    OpenPath(vm, sh, r, va);
    SmallGranted(vm.mem, r, va, bit);
    var e1 := Entry(vm.mem, r, Pml4Idx(va));
    var e2 := Entry(vm.mem, FrameOf(e1), PdptIdx(va));
    OpenHas(e1, bit);
    OpenHas(e2, bit);
    OpenHas(Entry(vm.mem, FrameOf(e2), PdIdx(va)), bit);
  }

  /** The bits of an entry made of a frame, flags and the present bit. */
  lemma LeafBits(f: nat, flags: nat, bit: nat)
    requires bit == WRITE || bit == USER
    ensures Has(f * 4096 + flags + 1 - flags % 2, bit) <==> Has(flags, bit)
  {
    hide Has;
    var k, r := flags / 8, flags % 8;
    var odd := 1 - flags % 2;
    assert flags == 8 * k + r && r % 2 == flags % 2;
    LowThree(flags, k, r);
    assert f * 4096 + flags + odd == 8 * (f * 512 + k) + (r + odd);
    LowThree(f * 4096 + flags + odd, f * 512 + k, r + odd);
    SetBit0(r);
  }

  lemma SetBit0(r: nat)
    requires r < 8
    ensures r + 1 - r % 2 < 8 && (r + 1 - r % 2) / 2 == r / 2 && (r + 1 - r % 2 >= 4 <==> r >= 4)
  {}

  /** A private page mapped with some flags has exactly the rights asked for. */
  lemma MappedRights(vm: Vm, sh: Shape, r: Frame, va: nat, phys: nat, flags: nat, bit: nat)
    requires Wf(vm, sh) && PathsOpen(vm.mem, sh) && r in sh.copied && !sh.Shared(r, Dir(va))
    requires FrameOf(flags) == 0 && MapPageInto(vm, r, va, phys, flags).1 && (bit == WRITE || bit == USER)
    ensures Granted(MapPageInto(vm, r, va, phys, flags).0.mem, r, va, bit) <==> Has(flags, bit)
  {
    hide Wf, PathsOpen, Lookup, Entry, FrameOf, MapPageInto, Granted, Has, GetPteInto, LeafTable, OpenLinks,
      LeafEntry, Present, Dir, PtIdx, CoveredByHugePage, Missing, PmmSpec.FreeSet, SamePage, PathPlaces, Grown;
    var sn := MapPageIntoExact(vm, sh, r, va, phys, flags);
    var vn := MapPageInto(vm, r, va, phys, flags).0;
    SameRoots(vm, vn, sh, sn);
    OpenLinksKeep(vm, sh, vn, sn);
    LeafEntryFields(phys, flags);
    SamePlace(va);
    assert Lookup(vn.mem, r, va) == LeafView(LeafEntry(phys, flags));
    PrivateRights(vn, sn, r, va, bit);
    LeafBits(phys / 4096 % 0x100_0000_0000, flags, bit);
  }

  lemma SamePlace(va: nat)
    ensures SamePage(va, va)
  {}

  lemma SameRoots(vm: Vm, vn: Vm, sh: Shape, sn: Shape)
    requires Grown(vm, vn, sh, sn)
    ensures sn.k == sh.k && sn.copied == sh.copied
  {}

  /** So has one whose flags are changed. */
  lemma ProtectedRights(vm: Vm, sh: Shape, r: Frame, va: nat, flags: nat, bit: nat)
    requires Wf(vm, sh) && PathsOpen(vm.mem, sh) && r in sh.copied && !sh.Shared(r, Dir(va))
    requires FrameOf(flags) == 0 && ProtectPageInto(vm, r, va, flags).1 && (bit == WRITE || bit == USER)
    ensures Granted(ProtectPageInto(vm, r, va, flags).0.mem, r, va, bit) <==> Has(flags, bit)
  {
    hide Wf, PathsOpen, Lookup, Entry, FrameOf, ProtectPageInto, Granted, Has, GetPteInto, LeafTable, OpenLinks,
      LeafEntry, Present, Dir, PtIdx, SamePage;
    ProtectPageIntoExact(vm, sh, r, va, flags);
    var vn := ProtectPageInto(vm, r, va, flags).0;
    OpenLinksKeep(vm, sh, vn, sh);
    LeafEntryFields(Lookup(vm.mem, r, va).pte, flags);
    SamePlace(va);
    assert Lookup(vn.mem, r, va) == LeafView(LeafEntry(Lookup(vm.mem, r, va).pte, flags));
    PrivateRights(vn, sh, r, va, bit);
    LeafBits(GetPteInto(vm.mem, r, va) / 4096 % 0x100_0000_0000, flags, bit);
  }

  // ---- Over runs ------------------------------------------------------------------------------

  lemma {:induction false} RunPathsOpen(m: Machine, ops: seq<VmOp>)
    requires Wf(m.vm, m.sh) && PathsOpen(m.vm.mem, m.sh)
    ensures PathsOpen(Run(m, ops).vm.mem, Run(m, ops).sh)
  {
    hide Wf, Apply, Lookup, FrameOf, PathsOpen;
    if ops != [] { RunPathsOpen(m, ops[..|ops| - 1]); }
  }

  /** Over any run of mapping operations in any spaces, the rights of a private page are those of its
      own entry. */
  lemma RunRights(m: Machine, ops: seq<VmOp>, r: Frame, va: nat, bit: nat)
    requires Wf(m.vm, m.sh) && PathsOpen(m.vm.mem, m.sh) && (bit == WRITE || bit == USER)
    requires var n := Run(m, ops);
      r in n.sh.copied && !n.sh.Shared(r, Dir(va)) && Lookup(n.vm.mem, r, va).Page4K?
    ensures Granted(Run(m, ops).vm.mem, r, va, bit) <==> Has(GetPteInto(Run(m, ops).vm.mem, r, va), bit)
  {
    hide Wf, Run, Lookup, Granted, Has, GetPteInto, PathsOpen, Dir;
    RunPathsOpen(m, ops);
    RunWf(m, ops, m.sh.k);
    PrivateRights(Run(m, ops).vm, Run(m, ops).sh, r, va, bit);
  }

  /** A private page keeps exactly the rights it was mapped with, as long as no operation targets it. */
  lemma MappedRunRights(m: Machine, r: Frame, va: nat, phys: nat, flags: nat, ops: seq<VmOp>, bit: nat)
    requires Wf(m.vm, m.sh) && PathsOpen(m.vm.mem, m.sh) && r in m.sh.copied && !m.sh.Shared(r, Dir(va))
    requires FrameOf(flags) == 0 && MapPageInto(m.vm, r, va, phys, flags).1 && (bit == WRITE || bit == USER)
    requires var n := Step(m, MapOp(r, va, phys, flags));
      forall i | 0 <= i < |ops| :: !Touches(Run(n, ops[..i]).sh, ops[i], r, va)
    ensures Granted(Run(Step(m, MapOp(r, va, phys, flags)), ops).vm.mem, r, va, bit) <==> Has(flags, bit)
  {
    hide Wf, Run, Lookup, Granted, Has, GetPteInto, PathsOpen, Dir, MapPageInto, FrameOf, Touches, SamePage;
    var op := MapOp(r, va, phys, flags);
    var n := Step(m, op);
    assert n.vm == MapPageInto(m.vm, r, va, phys, flags).0;
    MappedPte(m.vm, m.sh, r, va, phys, flags, bit);
    assert Run(n, []) == n by { RunNothing(n); }
    RunWf(n, ops, r);
    RunKeepsView(n, ops, r, va);
    SameRaw(n.vm.mem, Run(n, ops).vm.mem, r, va);
    WfRoots(m);
    StillPrivate(m.sh, Run(n, ops).sh, r, va);
    RunPathsOpen(n, ops);
    PrivateRights(Run(n, ops).vm, Run(n, ops).sh, r, va, bit);
  }

  lemma RunNothing(m: Machine)
    ensures Run(m, []) == m
  {}

  /** What is private is fixed when a space is created. */
  lemma StillPrivate(sh: Shape, sn: Shape, r: Frame, va: nat)
    requires r in sh.copied && r != sh.k && sn.k == sh.k && !sh.Shared(r, Dir(va))
    requires sn.Root(r) && sn.copied[r] == sh.copied[r]
    ensures r in sn.copied && !sn.Shared(r, Dir(va))
  {}

  lemma MappedPte(vm: Vm, sh: Shape, r: Frame, va: nat, phys: nat, flags: nat, bit: nat)
    requires Wf(vm, sh) && sh.Root(r) && FrameOf(flags) == 0 && MapPageInto(vm, r, va, phys, flags).1
    requires bit == WRITE || bit == USER
    ensures var m := MapPageInto(vm, r, va, phys, flags).0.mem;
      Lookup(m, r, va).Page4K? && (Has(GetPteInto(m, r, va), bit) <==> Has(flags, bit))
  {
    hide Wf, Lookup, Entry, FrameOf, MapPageInto, Has, GetPteInto, OpenLinks, LeafEntry, Present, Dir, PtIdx,
      CoveredByHugePage, Missing, PmmSpec.FreeSet, SamePage, PathPlaces, Grown;
    var sn := MapPageIntoExact(vm, sh, r, va, phys, flags);
    var vn := MapPageInto(vm, r, va, phys, flags).0;
    LeafEntryFields(phys, flags);
    SamePlace(va);
    assert Lookup(vn.mem, r, va) == LeafView(LeafEntry(phys, flags));
    LeafBits(phys / 4096 % 0x100_0000_0000, flags, bit);
  }

  lemma SameRaw(m: map<Frame, seq<nat>>, n: map<Frame, seq<nat>>, r: Frame, va: nat)
    requires Lookup(m, r, va).Page4K? && Lookup(n, r, va) == Lookup(m, r, va)
    ensures GetPteInto(n, r, va) == GetPteInto(m, r, va)
  {
    hide Lookup, GetPteInto;
    GetPteIntoAgrees(m, r, va);
    GetPteIntoAgrees(n, r, va);
  }

  // ---- The kernel's own map ---------------------------------------------------------------------

  lemma BootOpen(pt: Frame)
    ensures PathsOpen(BootTables(pt), BootShape(pt))
  {
    var sh := BootShape(pt);
    hide Entry, BootTables;
    forall q, j: nat | q in sh.at && |q.path| < 3 && j < 512
      ensures PathOpen(BootTables(pt), sh, q, j)
    {
      BootPlaces(pt, q, j);
    }
  }

  /** At boot everything below 4 GB may be written, and none of it from user mode. */
  lemma BootRights(pt: Frame, va: nat)
    requires pt + 5 < PmmSpec.MAX_PAGES && va < 0x1_0000_0000
    ensures Granted(BootTables(pt), pt, va, WRITE) && !Granted(BootTables(pt), pt, va, USER)
  {
    hide Present, Huge, FrameOf, Entry, BootTables, PdEntry, Pml4Idx, PdptIdx, PdIdx, Has;
    IndexBounds(va);
    BootEntries(pt, Pml4Idx(va));
    BootEntries(pt, PdptIdx(va));
    BootEntries(pt, PdIdx(va));
    DirectoryEntryFields(pt + 1);
    LowIndices(va);
    DirectoryEntryFields(pt + 2 + PdptIdx(va));
    PdEntryFields(PdIdx(va) + 512 * PdptIdx(va));
    KernelBits(pt + 1);
    KernelBits(pt + 2 + PdptIdx(va));
    HugeBits(PdIdx(va) + 512 * PdptIdx(va));
  }

  lemma KernelBits(f: Frame)
    ensures Has(f * 4096 + 3, WRITE) && !Has(f * 4096 + 3, USER)
  {
    hide Has;
    LowThree(f * 4096 + 3, f * 512, 3);
  }

  lemma HugeBits(i: nat)
    ensures Has(PdEntry(i), WRITE) && !Has(PdEntry(i), USER)
  {
    hide Has;
    LowThree(PdEntry(i), i * 0x4_0000 + 16, 3);
  }

  // ---- The KUSER page -----------------------------------------------------------------------------

  lemma WithUserHas(e: nat)
    ensures Has(WithUser(e), USER)
  {
    hide Has;
    LowThree(e, e / 8, e % 8);
    if e % 8 < 4 { LowThree(e + 4, e / 8, e % 8 + 4); }
    assert Has(e, USER) <==> e / 4 % 2 == 1 by { SameBit2(e); }
  }

  lemma SameBit2(e: nat)
    ensures Has(e, USER) <==> e / 4 % 2 == 1
  {}

  /** MapSharedUserData opens both upper levels to user mode. */
  lemma OpenedEntries(vm: Vm, sh: Shape)
    requires Wf(vm, sh)
    ensures var v2 := OpenKuserPath(vm, sh.k).0; var k := sh.k;
      && Pos(k, []) in sh.at && sh.at[Pos(k, [])] == k && Pos(k, [0]) in sh.at && Pos(k, [0, 1]) in sh.at
      && Has(Entry(v2.mem, k, 0), USER) && Has(Entry(v2.mem, sh.at[Pos(k, [0])], 1), USER)
      && FrameOf(Entry(v2.mem, k, 0)) == sh.at[Pos(k, [0])]
      && FrameOf(Entry(v2.mem, sh.at[Pos(k, [0])], 1)) == sh.at[Pos(k, [0, 1])]
  {
    OpenKuserPathKeeps(vm, sh);
    KuserIndices();
    KuserPath(vm, sh);
    KuserPath(OpenKuserPath(vm, sh.k).0, sh);
    var e1 := Entry(vm.mem, sh.k, 0);
    WithUserHas(e1);
    WithUserHas(Entry(vm.mem, FrameOf(e1), 1));
    WfTable(vm, sh, Pos(sh.k, []));
    WfTable(vm, sh, Pos(sh.k, [0]));
    hide Wf, WithUser, Has, Present, Huge, FrameOf, Pml4Idx, PdptIdx, RootOk;
  }

  /** Of the 2 MB that it splits, MapSharedUserData opens the KUSER page to user mode, for reading only. */
  lemma SharedPageRights(vm: Vm, sh: Shape, phys: nat, va: nat)
    requires Wf(vm, sh) && Lookup(vm.mem, sh.k, KUSER_VA).Page2M? && PmmSpec.FreeSet(vm.used) != {}
    requires Dir(va) == Dir(KUSER_VA)
    ensures var m := MapSharedUserData(vm, sh.k, phys).0.mem;
      && (Granted(m, sh.k, va, USER) <==> SamePage(va, KUSER_VA))
      && (SamePage(va, KUSER_VA) ==> !Granted(m, sh.k, va, WRITE))
  {
    var v2 := OpenKuserPath(vm, sh.k).0;
    var vn, f := MapSharedUserData(vm, sh.k, phys).0, PmmSpec.FirstFree(v2.used);
    var p := Pos(sh.k, [0, 1]);
    OpenKuserPathKeeps(vm, sh);
    SplitCases(vm, sh, phys);
    OpenedEntries(vm, sh);
    HugeSlot(v2, sh);
    KuserIndices();
    var e3 := Entry(v2.mem, sh.at[p], 511);
    assert Dir(va)[0] == Pml4Idx(va) == 0 && Dir(va)[1] == PdptIdx(va) == 1 && Dir(va)[2] == PdIdx(va) == 511;
    IndexBounds(va);
    hide Wf, Present, Huge, FrameOf, Entry, TableEntry, Lookup, SetEntry, Linked, OpenKuserPath, MapSharedUserData,
      Has, Pml4Idx, PdptIdx, PdIdx, PtIdx, SplitTable, SplitEntry, PathsOpen, Granted;
    SplitLinked(v2, vn, sh, f, e3, phys);
    LinkedEntry(v2, vn, sh, p, 511, f, SplitTable(e3, phys), Pos(sh.k, []), 0);
    LinkedEntry(v2, vn, sh, p, 511, f, SplitTable(e3, phys), Pos(sh.k, [0]), 1);
    LinkedEntry(v2, vn, sh, p, 511, f, SplitTable(e3, phys), p, 511);
    SplitView(v2, vn, sh, f, SplitTable(e3, phys), sh.k, va);
    SplitBits(e3, phys, PtIdx(va));
    OpenEntry(f);
    SmallPageRights(vn.mem, sh.k, va, SplitTable(e3, phys)[PtIdx(va)]);
  }

  lemma OpenEntry(f: Frame)
    ensures Has(TableEntry(f), USER)
  {
    hide Has;
    LowThree(TableEntry(f), f * 512, 7);
  }

  lemma SplitBits(huge: nat, phys: nat, i: nat)
    requires i < 512
    ensures var e := SplitEntry(huge, phys, i);
      Present(e) && (Has(e, USER) <==> i == PtIdx(KUSER_VA)) && (i == PtIdx(KUSER_VA) ==> !Has(e, WRITE))
  {
    if i == PtIdx(KUSER_VA) { LeafBitsOf5(FrameOf(phys)); } else { BitsOf3(huge / 0x20_0000 % 0x8000_0000 * 512 + i); }
  }

  lemma LeafBitsOf5(f: nat)
    ensures Present(f * 4096 + 5) && Has(f * 4096 + 5, USER) && !Has(f * 4096 + 5, WRITE) && FrameOf(5) == 0
  {
    hide Has, Present;
    LowThree(f * 4096 + 5, f * 512, 5);
  }

  lemma BitsOf3(f: nat)
    ensures Present(f * 4096 + 3) && !Has(f * 4096 + 3, USER)
  {
    hide Has, Present;
    LowThree(f * 4096 + 3, f * 512, 3);
  }

  lemma SmallPageRights(m: map<Frame, seq<nat>>, root: Frame, va: nat, pte: nat)
    requires Present(pte) && Lookup(m, root, va) == LeafView(pte)
    ensures var e1 := Entry(m, root, Pml4Idx(va));
      var e2 := Entry(m, FrameOf(e1), PdptIdx(va));
      var e3 := Entry(m, FrameOf(e2), PdIdx(va));
      forall bit | bit > 0 :: Granted(m, root, va, bit) <==>
        Has(e1, bit) && Has(e2, bit) && Has(e3, bit) && Has(pte, bit)
  {
    hide Lookup, Entry, FrameOf, Has, Pml4Idx, PdptIdx, PdIdx, Present;
  }

  /** A new space has the kernel's rights below 4 GB, as far as the kernel's first entry grants them. */
  lemma NewSpaceRights(vm: Vm, vn: Vm, sh: Shape, r: Frame, d: Frame, va: nat, bit: nat)
    requires SpaceAdded(vm, vn, sh, r, d) && va < 0x1_0000_0000 && (bit == WRITE || bit == USER)
    requires Has(Entry(vm.mem, sh.k, 0), bit)
    ensures Granted(vn.mem, r, va, bit) <==> Granted(vm.mem, sh.k, va, bit)
  {
    hide Present, Huge, FrameOf, Entry, TableEntry, Has, Pml4Idx, PdptIdx, PdIdx, PtIdx, CopiedSlots, UpperCopy,
      LowCopy;
    LowIndices(va);
    IndexBounds(va);
    NewSpaceView(vm, vn, sh, r, d, va);
    NewDirectory(vm, vn, sh, r, d, PdptIdx(va));
    TableEntryFields(d);
    TableEntryIsOpen(d);
    OpenHas(TableEntry(d), bit);
    WfRoot(vm, sh, sh.k);
    assert [0] + [PdptIdx(va)] == [0, PdptIdx(va)];
    RootPlace(vm, sh, sh.k);
    WfSlot(vm, sh, Pos(sh.k, []), 0);
    WfSlot(vm, sh, Pos(sh.k, [0]), PdptIdx(va));
    OldPlaceKept(vm, vn, sh, r, d, Pos(sh.k, [0, PdptIdx(va)]));
  }

  lemma NewDirectory(vm: Vm, vn: Vm, sh: Shape, r: Frame, d: Frame, b: nat)
    requires SpaceAdded(vm, vn, sh, r, d) && b < 4
    ensures Entry(vn.mem, r, 0) == TableEntry(d)
    ensures Entry(vn.mem, d, b) == Entry(vm.mem, FrameOf(Entry(vm.mem, sh.k, 0)), b)
  {
    RootPlace(vm, sh, sh.k);
    WfRoot(vm, sh, sh.k);
    WfSlot(vm, sh, Pos(sh.k, []), 0);
    assert [] + [0] == [0];
    hide Wf, Huge, FrameOf, TableEntry;
    assert Entry(vn.mem, d, b) == LowCopy(vm.mem, sh.k)[b];
  }
}
