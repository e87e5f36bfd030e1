/** The virtual memory manager of kernel/mm/virtual_memory.cpp, working in place: table frames in
    `mem` are written entry by entry, new ones come from the page allocator.  Each method computes
    what `PageTables` and `AddressSpaces` define and keeps the heap shape. */
module VirtualMemory {
  import opened PmmSpec
  import opened PageTables
  import opened Wrappers
  import opened AddressSpaces
  import AccessRights
  import Pmm

  class Vmm {
    const pmm: Pmm.Pmm
    const pml4: Frame            // the kernel's root
    var mem: map<Frame, seq<nat>>
    ghost var shape: Shape

    ghost function Memory(): Vm
      reads this`mem, pmm`used
    {
      Vm(mem, pmm.used)
    }

    ghost predicate Valid()
      reads this, pmm, pmm.bitmap
    {
      pmm.Valid() && shape.k == pml4 && Wf(Memory(), shape) && PathsOpen(mem, shape)
    }

    /** The boot state: the identity map built by the bootloader in six pages from `pt`. */
    constructor (pmm: Pmm.Pmm, pt: Frame)
      requires pmm.Valid() && 0 < pt && pt + 5 < MAX_PAGES
      requires pmm.used[0] && forall f | pt <= f < pt + 6 :: pmm.used[f]
      ensures Valid() && this.pmm == pmm && pml4 == pt && mem == BootTables(pt)
      ensures shape == BootShape(pt)
    {
      this.pmm, pml4 := pmm, pt;
      mem := map[];
      shape := BootShape(pt);
      new;
      mem := BuildPageTables(pt);
      BootWf(pt, pmm.used);
      AccessRights.BootOpen(pt);
    }

    method ZeroFrame(f: Frame)
      modifies this`mem
      ensures mem == old(mem)[f := Zeros()]
    {
      var tbl: seq<nat> := if f in mem && |mem[f]| == 512 then mem[f] else Zeros();
      var i := 0;
      while i < 512
        invariant 0 <= i <= 512 && |tbl| == 512
        invariant forall j | 0 <= j < i :: tbl[j] == 0
      {
        tbl := tbl[i := 0];
        i := i + 1;
      }
      assert tbl == Zeros();
      mem := mem[f := tbl];
    }

    method GetOrAllocTable(g: Frame, i: nat) returns (r: Option<Frame>)
      requires pmm.Valid()
      modifies this`mem, pmm, pmm.bitmap
      ensures pmm.Valid()
      ensures (Memory(), r) == GetOrAlloc(old(Memory()), g, i)
    {
      hide Present, Huge, FrameOf, TableEntry, Alloc;
      var e := Entry(mem, g, i);
      if Present(e) {
        if Huge(e) { return None; }
        return Some(FrameOf(e));
      }
      var phys := pmm.AllocPage();
      if phys == 0 { return None; }
      ZeroFrame(phys / 4096);
      mem := SetEntry(mem, g, i, TableEntry(phys / 4096));
      return Some(phys / 4096);
    }

    method FindPageTable(root: Frame, va: nat) returns (pt: Option<Frame>)
      requires pmm.Valid()
      modifies this`mem, pmm, pmm.bitmap
      ensures pmm.Valid()
      ensures (Memory(), pt) == PageTableFor(old(Memory()), root, va)
    {
      hide GetOrAlloc, Pml4Idx, PdptIdx, PdIdx;
      var pdpt := GetOrAllocTable(root, Pml4Idx(va));
      if pdpt.None? { return None; }
      var pd := GetOrAllocTable(pdpt.value, PdptIdx(va));
      if pd.None? { return None; }
      pt := GetOrAllocTable(pd.value, PdIdx(va));
    }

    /** MapPageInto; MapPage is the same on the kernel's root. */
    method MapPage(root: Frame, va: nat, phys: nat, flags: nat) returns (ok: bool)
      requires Valid() && shape.Root(root) && FrameOf(flags) == 0
      modifies this`mem, this`shape, pmm, pmm.bitmap
      ensures Valid() && shape.copied == old(shape.copied)
      ensures (Memory(), ok) == MapPageInto(old(Memory()), root, va, phys, flags)
      ensures ok <==> old(!CoveredByHugePage(mem, root, va) && Missing(mem, root, va) <= |FreeSet(pmm.used)|)
      ensures ok ==> LeafChanged(old(Memory()), Memory(), shape, root, va, LeafEntry(phys, flags))
      ensures !ok ==> SameViews(old(Memory()), Memory(), shape)
      ensures Grown(old(Memory()), Memory(), old(shape), shape)
      ensures Paid(old(Memory()), Memory(), old(shape), shape)
      ensures AddedWithin(old(shape), shape, PathPlaces(shape, root, va))
      ensures (ok ==> PathPlaces(shape, root, va) <= shape.at.Keys)
      ensures ok ==> GetPteInto(mem, root, va) == phys / 4096 % 0x100_0000_0000 * 4096 + flags + 1 - flags % 2
      ensures OpenLinks(old(Memory()), old(shape), Memory(), shape)
    {
      hide Wf, PageTableFor, LeafEntry, FrameOf, CoveredByHugePage, Missing, Lookup, FreeSet, Pml4Idx, PdptIdx, PdIdx,
        PtIdx, PathsOpen, OpenLinks, GetPteInto;
      ghost var before := Memory();
      ghost var sn := MapPageIntoExact(before, shape, root, va, phys, flags);
      OpenLinksKeep(before, shape, MapPageInto(before, root, va, phys, flags).0, sn);
      shape := sn;
      var pt := FindPageTable(root, va);
      if pt.None? { return false; }
      mem := SetEntry(mem, pt.value, PtIdx(va), LeafEntry(phys, flags));
      return true;
    }

    method ProtectPage(root: Frame, va: nat, flags: nat) returns (ok: bool)
      requires Valid() && shape.Root(root) && FrameOf(flags) == 0
      modifies this`mem
      ensures Valid()
      ensures (Memory(), ok) == ProtectPageInto(old(Memory()), root, va, flags)
      ensures ok <==> old(Lookup(mem, root, va)).Page4K?
      ensures ok ==> LeafChanged(old(Memory()), Memory(), shape, root, va,
                                 LeafEntry(old(Lookup(mem, root, va)).pte, flags))
      ensures !ok ==> mem == old(mem)
      ensures ok ==>
        GetPteInto(mem, root, va)
          == old(GetPteInto(mem, root, va)) / 4096 % 0x100_0000_0000 * 4096 + flags + 1 - flags % 2
    {
      hide Wf, Present, FrameOf, LeafEntry, Lookup, LeafTable, PtIdx, LeafChanged, Entry, PathsOpen, OpenLinks,
        GetPteInto;
      ProtectPageIntoExact(Memory(), shape, root, va, flags);
      OpenLinksKeep(Memory(), shape, ProtectPageInto(Memory(), root, va, flags).0, shape);
      var pt := LeafTable(mem, root, va);
      if pt.None? { return false; }
      var pte := Entry(mem, pt.value, PtIdx(va));
      if !Present(pte) { return false; }
      mem := SetEntry(mem, pt.value, PtIdx(va), LeafEntry(pte, flags));
      return true;
    }

    method UnmapPage(root: Frame, va: nat)
      requires Valid() && shape.Root(root)
      modifies this`mem
      ensures Valid() && Memory() == UnmapPageFrom(old(Memory()), root, va)
      ensures old(Lookup(mem, root, va)).Page4K? ==> LeafChanged(old(Memory()), Memory(), shape, root, va, 0)
      ensures !old(Lookup(mem, root, va)).Page4K? ==> SameViews(old(Memory()), Memory(), shape)
    {
      hide Wf, Present, FrameOf, Lookup, LeafTable, PtIdx, LeafChanged, SameViews, PathsOpen, OpenLinks;
      UnmapPageFromExact(Memory(), shape, root, va);
      OpenLinksKeep(Memory(), shape, UnmapPageFrom(Memory(), root, va), shape);
      var pt := LeafTable(mem, root, va);
      if pt.Some? {
        mem := SetEntry(mem, pt.value, PtIdx(va), 0);
      }
    }

    method CopyUpper(r: Frame)
      modifies this`mem
      ensures mem == old(mem)[r := UpperCopy(old(mem), pml4)]
    {
      var tbl: seq<nat> := Zeros();
      var i := 1;
      while i < 512
        invariant 1 <= i <= 512 && |tbl| == 512
        invariant forall j | 0 <= j < 512 ::
          tbl[j] == if 1 <= j < i && Present(Entry(mem, pml4, j)) then WithUser(Entry(mem, pml4, j)) else 0
      {
        var e := Entry(mem, pml4, i);
        if Present(e) { tbl := tbl[i := WithUser(e)]; }
        i := i + 1;
      }
      assert tbl == UpperCopy(mem, pml4);
      mem := mem[r := tbl];
    }

    method CopyLow(d: Frame, ghost m: map<Frame, seq<nat>>)
      requires LowCopy(mem, pml4) == LowCopy(m, pml4)
      modifies this`mem
      ensures mem == old(mem)[d := LowCopy(m, pml4)]
    {
      var tbl: seq<nat> := Zeros();
      var e := Entry(mem, pml4, 0);
      if Present(e) {
        var i := 0;
        while i < 4
          invariant 0 <= i <= 4 && |tbl| == 512
          invariant forall j | 0 <= j < 512 :: tbl[j] == if j < i then Entry(mem, FrameOf(e), j) else 0
        {
          tbl := tbl[i := Entry(mem, FrameOf(e), i)];
          i := i + 1;
        }
      }
      assert tbl == LowCopy(mem, pml4);
      mem := mem[d := tbl];
    }

    /** CreateUserPml4: a space that shares the kernel's present places and has nothing else mapped;
        it fails exactly when fewer than two pages are free, and then nothing has changed for anyone. */
    method CreateSpace() returns (r: Option<Frame>)
      requires Valid()
      modifies this`mem, this`shape, pmm, pmm.bitmap
      ensures Valid()
      ensures (Memory(), r) == CreateUserPml4(old(Memory()), pml4)
      ensures r.Some? <==> 2 <= |FreeSet(old(pmm.used))|
      ensures SameViews(old(Memory()), Memory(), old(shape))
      ensures r.None? ==> shape == old(shape)
      ensures r.Some? ==> !old(shape).Root(r.value)
      ensures r.Some? ==> shape.copied == old(shape.copied)[r.value := old(CopiedSlots(mem, pml4))]
      ensures r.Some? ==> shape.at.Keys == old(shape.at.Keys) + {Pos(r.value, []), Pos(r.value, [0])}
      ensures NewTables(old(Memory()), old(shape), shape)
      ensures r.Some? ==> forall va: nat ::
        (Lookup(mem, r.value, va) ==
         if Pml4Idx(va) == 0 && PdptIdx(va) >= 4 then NotMapped else Lookup(old(mem), pml4, va))
    {
      hide Wf, Present, FrameOf, WithUser, Lookup, Alloc, Free, TableEntry, Entry, CopiedSlots, Pml4Idx, PdptIdx,
        FreeSet, SetEntry, PathsOpen;
      ghost var vm := Memory();
      CreateCases(vm, shape);
      CreateFramesFree(vm, shape);
      ghost var sn := CreateStep(vm, shape);
      shape := sn;
      var a1 := pmm.AllocPage();
      if a1 == 0 { return None; }
      CopyUpper(a1 / 4096);
      var a2 := pmm.AllocPage();
      if a2 == 0 {
        pmm.FreePage(a1);
        return None;
      }
      CopyLow(a2 / 4096, vm.mem);
      mem := SetEntry(mem, a1 / 4096, 0, TableEntry(a2 / 4096));
      return Some(a1 / 4096);
    }

    /** MapSharedUserData. */
    method ShareUserData(phys: nat) returns (ok: bool)
      requires Valid()
      modifies this`mem, this`shape, pmm, pmm.bitmap
      ensures Valid() && shape.copied == old(shape.copied)
      ensures (Memory(), ok) == MapSharedUserData(old(Memory()), pml4, phys)
    {
      hide Wf, Present, Huge, FrameOf, WithUser, Lookup, Alloc, TableEntry, LeafEntry, FreeSet, SetEntry, Entry,
        PageTableFor, Pml4Idx, PdptIdx, PdIdx, PtIdx, SplitTable, PathsOpen;
      ghost var sn := ShareShape(Memory(), shape, phys);
      shape := sn;
      var e1 := Entry(mem, pml4, Pml4Idx(KUSER_VA));
      if !Present(e1) { return false; }
      mem := SetEntry(mem, pml4, Pml4Idx(KUSER_VA), WithUser(e1));
      var e2 := Entry(mem, FrameOf(e1), PdptIdx(KUSER_VA));
      if !Present(e2) { return false; }
      mem := SetEntry(mem, FrameOf(e1), PdptIdx(KUSER_VA), WithUser(e2));
      var e3 := Entry(mem, FrameOf(e2), PdIdx(KUSER_VA));
      if !Present(e3) || !Huge(e3) {
        var pt := FindPageTable(pml4, KUSER_VA);
        if pt.None? { return false; }
        assert FrameOf(5) == 0 by { NoAddressBits(); }
        mem := SetEntry(mem, pt.value, PtIdx(KUSER_VA), LeafEntry(phys, 5));
        return true;
      }
      var a := pmm.AllocPage();
      if a == 0 { return false; }
      FillSplitTable(a / 4096, e3, phys);
      mem := SetEntry(mem, FrameOf(e2), PdIdx(KUSER_VA), TableEntry(a / 4096));
      return true;
    }

    method FillSplitTable(f: Frame, e3: nat, phys: nat)
      modifies this`mem
      ensures mem == old(mem)[f := SplitTable(e3, phys)]
    {
      hide LeafEntry, PtIdx;
      KuserIndices();
      var base := e3 / 0x20_0000 % 0x8000_0000 * 0x20_0000;
      var tbl: seq<nat> := Zeros();
      var i := 0;
      while i < 512
        invariant 0 <= i <= 512 && |tbl| == 512
        invariant forall j | 0 <= j < i :: tbl[j] == base + j * 4096 + 3
      {
        tbl := tbl[i := base + i * 4096 + 3];
        i := i + 1;
      }
      tbl := tbl[480 := LeafEntry(phys, 5)];
      assert tbl == SplitTable(e3, phys);
      mem := mem[f := tbl];
    }
  }

  lemma NoAddressBits()
    ensures FrameOf(5) == 0
  {}

  lemma ShareShape(vm: Vm, sh: Shape, phys: nat) returns (sn: Shape)
    requires Wf(vm, sh)
    ensures Wf(MapSharedUserData(vm, sh.k, phys).0, sn) && sn.k == sh.k && sn.copied == sh.copied
    ensures PathsOpen(vm.mem, sh) ==> PathsOpen(MapSharedUserData(vm, sh.k, phys).0.mem, sn)
  {
    hide Wf, Lookup, FrameOf, LeafEntry, MapSharedUserData, Dir, PtIdx, FreeSet, PathsOpen;
    if Lookup(vm.mem, sh.k, KUSER_VA).Page2M? {
      sn := MapSharedUserDataSplits(vm, sh, phys);
    } else {
      sn := MapSharedUserDataMaps(vm, sh, phys);
    }
  }

  /** The new root's frame is none of the tables that are copied from. */
  lemma CreateFramesFree(vm: Vm, sh: Shape)
    requires Wf(vm, sh)
    ensures var (u1, a1) := Alloc(vm.used);
      a1 != 0 ==> LowCopy(vm.mem[a1 / 4096 := UpperCopy(vm.mem, sh.k)], sh.k) == LowCopy(vm.mem, sh.k)
  {
    WfRoot(vm, sh, sh.k);
    AllocFailsIffExhausted(vm.used);
    RootFacts(vm, sh, sh.k, 0);
    hide Wf, Present, Huge;
    var (u1, a1) := Alloc(vm.used);
    if a1 != 0 {
      var f := FirstFree(vm.used);
      assert a1 / 4096 == f && !vm.used[f];
      var m1 := vm.mem[f := UpperCopy(vm.mem, sh.k)];
      assert Entry(m1, sh.k, 0) == Entry(vm.mem, sh.k, 0);
    }
  }
}
