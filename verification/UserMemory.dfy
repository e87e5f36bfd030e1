/** The memory calls of kernel/syscall/syscall.cpp, working in place on processes and sections. */
module UserMemory {
  import opened PmmSpec
  import opened PageTables
  import opened Wrappers
  import opened AddressSpaces
  import opened MappingCosts
  import opened UserMemorySpec
  import VirtualMemory
  import AccessRights

  const PEB_VA: nat := 0x7FF_FE00_0000
  const TEB_BASE: nat := 0x7FF_FE10_0000
  /** The PML4 slot of both, which the source counts on being empty. */
  const PEB_SLOT: nat := 15

  /** The fields of KProcess that the memory calls use. */
  class Process {
    const cr3: Frame
    var cursor: nat
    var peb: nat
    var nextTeb: nat

    constructor (cr3: Frame)
      ensures this.cr3 == cr3 && cursor == HEAP_BASE && peb == 0 && nextTeb == 0
    {
      this.cr3, cursor, peb, nextTeb := cr3, HEAP_BASE, 0, 0;
    }

    ghost predicate TebOk()
      reads this`peb, this`nextTeb
    {
      nextTeb % 4096 == 0 && (peb != 0 ==> nextTeb >= TEB_BASE)
    }
  }

  /** Nothing of the kernel is where the PEB and the TEBs go. */
  ghost predicate PebSlotFree(sh: Shape) {
    Pos(sh.k, [PEB_SLOT]) !in sh.at && forall r | r in sh.copied :: PEB_SLOT !in sh.copied[r]
  }

  lemma SlotStaysFree(vm: Vm, sh: Shape, sn: Shape, r: Frame, va: nat)
    requires Wf(vm, sh) && PebSlotFree(sh) && r in sh.copied && sn.k == sh.k && sn.copied == sh.copied
    requires AddedWithin(sh, sn, PathPlaces(sn, r, va))
    ensures PebSlotFree(sn)
  {
    WfRoot(vm, sh, sh.k);
    hide Wf, Pml4Idx, PdptIdx, PdIdx;
    var p := Pos(sh.k, [PEB_SLOT]);
    assert |sn.Reach(r, [Pml4Idx(va), PdptIdx(va)]).path| == 2 && |sn.Reach(r, Dir(va)).path| == 3;
    assert sn.Reach(r, [Pml4Idx(va)]) != p && |p.path| == 1;
  }

  lemma SpaceLeavesSlotFree(vm: Vm, sh: Shape, sn: Shape, r: Frame)
    requires Wf(vm, sh) && PebSlotFree(sh) && sn.k == sh.k && !sh.Root(r)
    requires sn.copied == sh.copied[r := CopiedSlots(vm.mem, sh.k)]
    requires sn.at.Keys == sh.at.Keys + {Pos(r, []), Pos(r, [0])}
    ensures PebSlotFree(sn)
  {
    RootPlace(vm, sh, sh.k);
    WfSlot(vm, sh, Pos(sh.k, []), PEB_SLOT);
    assert [] + [PEB_SLOT] == [PEB_SLOT];
    hide Wf, Present, Huge, FrameOf, Entry;
    assert sh.Child(Pos(sh.k, []), PEB_SLOT) == Pos(sh.k, [PEB_SLOT]);
  }

  /** Pages of that slot are user pages of every space. */
  lemma PebPagesAreUser(sh: Shape, r: Frame, p: nat)
    requires PebSlotFree(sh) && r in sh.copied && 0x7800_0000 <= p < 0x8000_0000
    ensures UserPage(sh.copied, r, p)
  {
    assert Pml4Idx(p * 4096) == PEB_SLOT;
  }

  datatype Section = Section(phys: seq<nat>, pageCount: nat, inUse: bool)

  ghost function SectionFrames(secs: seq<Section>): set<Frame> {
    set i, j | 0 <= i < |secs| && secs[i].inUse && 0 <= j < secs[i].pageCount && j < |secs[i].phys| ::
      secs[i].phys[j] / 4096
  }

  ghost predicate SectionsOk(secs: seq<Section>) {
    |secs| == 8 && forall s | s in secs :: SectionOk(s)
  }

  ghost predicate SectionOk(s: Section) {
    |s.phys| == 32 && (s.inUse ==> s.pageCount <= 32) && forall a | a in s.phys :: a % 4096 == 0
  }

  class MemoryCalls {
    const vmm: VirtualMemory.Vmm
    var sections: seq<Section>
    ghost var procs: set<Process>
    ghost var anon: set<Anon>
    ghost var grants: seq<Grant>

    ghost predicate Spaces()
      reads this, vmm, vmm.pmm, vmm.pmm.bitmap, procs
    {
      && vmm.Valid() && SectionsOk(sections) && PebSlotFree(vmm.shape)
      && (forall q | q in procs :: q.cr3 in vmm.shape.copied)
      && (forall q, q' | q in procs && q' in procs && q.cr3 == q'.cr3 :: q == q')
      && (forall q | q in procs :: q.TebOk())
    }

    ghost predicate Windows()
      reads this, vmm, vmm.pmm`used, procs
    {
      && FramesOk(vmm.Memory(), vmm.shape, SectionFrames(sections), anon)
      && GrantsOk(grants, anon) && (forall g | g in grants :: g.root in vmm.shape.copied)
      && (forall q | q in procs :: Below(grants, anon, q.cr3, q.cursor))
    }

    ghost predicate Valid()
      reads this, vmm, vmm.pmm, vmm.pmm.bitmap, procs
    {
      Spaces() && Windows()
    }

    constructor (vmm: VirtualMemory.Vmm)
      requires vmm.Valid() && vmm.shape.copied == map[] && PebSlotFree(vmm.shape)
      ensures Valid() && this.vmm == vmm && procs == {} && anon == {} && grants == []
    {
      hide Wf, Lookup, FrameAt, FreeSet;
      this.vmm := vmm;
      sections := NoSections();
      procs, anon, grants := {}, {}, [];
      new;
      EmptyWindow(vmm.Memory(), vmm.shape);
    }

    /** CreateUserPml4 and CreateProcess: a fresh address space, the whole window, and the pages of
        SetupPeb.  It fails exactly when two pages are missing; the four pages are all there exactly when
        nine pages were free: two tables of the space, three on the way to the PEB, and the pages. */
    method CreateProcess() returns (proc: Process?)
      requires Valid()
      modifies this`procs, this`anon, vmm`mem, vmm`shape, vmm.pmm, vmm.pmm.bitmap
      ensures Valid() && grants == old(grants)
      ensures proc == null <==> old(|FreeSet(vmm.pmm.used)|) < 2
      ensures proc == null ==> procs == old(procs) && anon == old(anon)
      ensures proc != null ==> fresh(proc) && procs == old(procs) + {proc} && proc.cursor == HEAP_BASE
      ensures proc != null ==> old(anon) <= anon <= old(anon) + PebPages(proc.cr3, 4)
      ensures proc != null ==> (anon == old(anon) + PebPages(proc.cr3, 4) <==> old(|FreeSet(vmm.pmm.used)|) >= 9)
      ensures Kept(old(vmm.Memory()), vmm.Memory(), old(vmm.shape), {})
    {
      hide Wf, FramesOk, GrantsOk, SectionsOk, SectionFrames, Lookup, FreeSet, PebSlotFree, Below, Room, PebPages,
        PebList, Kept, SameViews;
      ghost var vm, sh := vmm.Memory(), vmm.shape;
      var r := OpenSpace();
      if r.None? {
        KeptAll(vm, vmm.Memory(), sh, {});
        return null;
      }
      ghost var v1, s1 := vmm.Memory(), vmm.shape;
      proc := Enlist(r.value);
      SetupPeb(proc);
      ProcessMade(vm, v1, vmm.Memory(), sh, s1, vmm.shape, r.value);
    }

    /** The process object for a new address space. */
    method Enlist(r: Frame) returns (proc: Process)
      requires Valid() && r in vmm.shape.copied && forall q | q in procs :: q.cr3 != r
      requires (forall g | g in grants :: g.root != r) && forall a | a in anon :: a.0 != r
      modifies this`procs
      ensures Valid() && fresh(proc) && procs == old(procs) + {proc}
      ensures proc.cr3 == r && proc.cursor == HEAP_BASE && proc.peb == 0
    {
      hide Wf, FramesOk, GrantsOk, SectionsOk, SectionFrames, FreeSet, PebSlotFree, Below;
      NewBelow(grants, anon, r);
      proc := new Process(r);
      procs := procs + {proc};
    }

    /** The address space of a new process. */
    method OpenSpace() returns (r: Option<Frame>)
      requires Valid()
      modifies vmm`mem, vmm`shape, vmm.pmm, vmm.pmm.bitmap
      ensures Valid() && SameViews(old(vmm.Memory()), vmm.Memory(), old(vmm.shape))
      ensures r.None? <==> old(|FreeSet(vmm.pmm.used)|) < 2
      ensures r.Some? ==>
        && !old(vmm.shape).Root(r.value) && vmm.shape.k == old(vmm.shape).k
        && vmm.shape.copied.Keys == old(vmm.shape.copied.Keys) + {r.value}
        && vmm.shape.at.Keys == old(vmm.shape.at.Keys) + {Pos(r.value, []), Pos(r.value, [0])}
        && |FreeSet(vmm.pmm.used)| == old(|FreeSet(vmm.pmm.used)|) - 2
        && (forall g | g in grants :: g.root != r.value) && forall a | a in anon :: a.0 != r.value
    {
      hide Wf, FramesOk, GrantsOk, SectionsOk, SectionFrames, Lookup, FreeSet, CreateUserPml4, CopiedSlots, Pml4Idx,
        PdptIdx, SameViews, PebSlotFree, Below;
      ghost var vm, sh := vmm.Memory(), vmm.shape;
      CreateUsedGrows(vm, sh);
      r := vmm.CreateSpace();
      AnonymousRoots(vm, sh, SectionFrames(sections), anon);
      if r.None? {
        SameWindow(vm, vmm.Memory(), sh, sh, SectionFrames(sections), anon);
        return;
      }
      NewcomerIsEmpty(vm, vmm.Memory(), sh, vmm.shape, r.value);
      SameWindow(vm, vmm.Memory(), sh, vmm.shape, SectionFrames(sections), anon);
      SpaceLeavesSlotFree(vm, sh, vmm.shape, r.value);
      SpaceTakesTwo(vm, vmm.Memory(), sh);
    }

    /** SetupPeb: the PEB, the loader data, the parameters and the process heap, a page each, as far as
        pages can be taken; whether a page could be mapped is not looked at. */
    method SetupPeb(proc: Process)
      requires Valid() && proc in procs && proc.peb == 0
      requires forall k: nat | k < 4 :: PebPage(proc.cr3, k) !in anon
      modifies this`anon, proc`peb, proc`nextTeb, vmm`mem, vmm`shape, vmm.pmm, vmm.pmm.bitmap
      ensures Valid() && vmm.shape.copied == old(vmm.shape.copied) && vmm.shape.k == old(vmm.shape.k)
      ensures old(anon) <= anon <= old(anon) + PebPages(proc.cr3, 4)
      ensures anon == old(anon) + PebPages(proc.cr3, 4)
        <==> old(Room(vmm.Memory(), vmm.shape, proc.cr3, PebList(4), 4))
      ensures Kept(old(vmm.Memory()), vmm.Memory(), vmm.shape, PebPages(proc.cr3, 4))
      ensures PebOpen(vmm.mem, proc.cr3, anon, 4)
      ensures if old(FreeSet(vmm.pmm.used)) == {} then proc.peb == 0 && proc.nextTeb == old(proc.nextTeb)
              else proc.peb == PEB_VA && proc.nextTeb == TEB_BASE
    {
      hide Wf, FramesOk, GrantsOk, SectionsOk, SectionFrames, FreeSet, PebSlotFree, Below, Room, Spent, PebPages,
        PebList, Kept, OpenLeaf;
      ghost var v0, s0 := vmm.Memory(), vmm.shape;
      PebStart(v0, s0, proc.cr3);
      var phys;
      ghost var all := true;
      phys, all := MapPebPage(proc, 0, v0, s0, anon, all);
      if phys == 0 {
        PebStops(proc, 1, v0, s0, old(anon));
        return;
      }
      proc.peb, proc.nextTeb := PEB_VA, TEB_BASE;
      phys, all := MapPebPage(proc, 1, v0, s0, old(anon), all);
      if phys == 0 {
        PebStops(proc, 2, v0, s0, old(anon));
        return;
      }
      phys, all := MapPebPage(proc, 2, v0, s0, old(anon), all);
      if phys == 0 {
        PebStops(proc, 3, v0, s0, old(anon));
        return;
      }
      phys, all := MapPebPage(proc, 3, v0, s0, old(anon), all);
      if all { SpentFitted(v0, s0, vmm.Memory(), vmm.shape, proc.cr3, PebList(4), 4); }
    }

    lemma PebStops(proc: Process, k: nat, v0: Vm, s0: Shape, was: set<Anon>)
      requires k <= 4 && PebSoFar(proc, k, v0, s0, was, false) && forall j: nat | j < 4 :: PebPage(proc.cr3, j) !in was
      ensures PebSoFar(proc, 4, v0, s0, was, false)
      decreases 4 - k
    {
      hide Room, Kept, FreeSet, PebPages, PebList, OpenLeaf;
      if k < 4 {
        PebNotYet(was, anon, proc.cr3, k);
        PebSets(was, anon, proc.cr3, k);
        PebFewer(v0, s0, proc.cr3, k);
        KeptMore(v0, vmm.Memory(), vmm.shape, PebPages(proc.cr3, k), PebPages(proc.cr3, k + 1));
        PebStops(proc, k + 1, v0, s0, was);
      }
    }

    /** Where SetupPeb stands after `k` pages: `all` says that every one of them was mapped. */
    ghost predicate PebSoFar(proc: Process, k: nat, v0: Vm, s0: Shape, was: set<Anon>, all: bool)
      reads this, vmm, vmm.pmm`used
    {
      && vmm.shape.copied == s0.copied && vmm.shape.k == s0.k
      && was <= anon <= was + PebPages(proc.cr3, k)
      && (if all then anon == was + PebPages(proc.cr3, k)
                      && Spent(v0, s0, vmm.Memory(), vmm.shape, proc.cr3, PebList(k), k)
          else anon != was + PebPages(proc.cr3, k) && !Room(v0, s0, proc.cr3, PebList(k), k))
      && Kept(v0, vmm.Memory(), vmm.shape, PebPages(proc.cr3, k)) && PebOpen(vmm.mem, proc.cr3, anon, k)
    }

    /** One page of SetupPeb. */
    method MapPebPage(proc: Process, k: nat, ghost v0: Vm, ghost s0: Shape, ghost was: set<Anon>, ghost all: bool)
        returns (phys: nat, ghost still: bool)
      requires Valid() && proc in procs && k < 4 && PebSoFar(proc, k, v0, s0, was, all)
      requires PebPage(proc.cr3, k) !in was
      modifies this`anon, vmm`mem, vmm`shape, vmm.pmm, vmm.pmm.bitmap
      ensures Valid() && PebSoFar(proc, k + 1, v0, s0, was, still)
      ensures phys == 0 <==> old(FreeSet(vmm.pmm.used)) == {}
      ensures phys == 0 ==> !still
    {
      hide Wf, FramesOk, GrantsOk, SectionsOk, SectionFrames, FreeSet, PebSlotFree, Below, Room, Spent, PebPages,
        PebList, Kept, OneFits, OneSpent, UserPage, OpenLeaf, PebOpen;
      ghost var r, vm, sh := proc.cr3, vmm.Memory(), vmm.shape;
      PebPagesAreUser(sh, r, PEB_VA / 4096 + k);
      PebSets(was, anon, r, k);
      PebNotYet(was, anon, r, k);
      var ok;
      phys, ok := MapNewPage(proc, PEB_VA + k * 4096, true);
      assert (PEB_VA + k * 4096) / 4096 == PEB_VA / 4096 + k;
      PebNext(v0, s0, vm, sh, vmm.Memory(), vmm.shape, SectionFrames(sections), anon, r, k, ok, all);
      PebStaysOpen(vm, sh, vmm.Memory(), vmm.shape, SectionFrames(sections), anon, r, k, ok);
      if ok {
        MoreOutside(r, PEB_VA / 4096 + k);
        anon := anon + {PebPage(r, k)};
      }
      still := all && ok;
    }

    /** A page outside the window may become anonymous. */
    lemma MoreOutside(r: Frame, p: nat)
      requires p >= HEAP_MAX / 4096
      requires GrantsOk(grants, anon) && forall q | q in procs :: Below(grants, anon, q.cr3, q.cursor)
      ensures GrantsOk(grants, anon + {(r, p)})
      ensures forall q | q in procs :: Below(grants, anon + {(r, p)}, q.cr3, q.cursor)
    {
      hide GrantsOk, Below;
      OutsideWindow(grants, anon, (r, p), r, 0);
      forall q | q in procs ensures Below(grants, anon + {(r, p)}, q.cr3, q.cursor) {
        OutsideWindow(grants, anon, (r, p), q.cr3, q.cursor);
      }
    }

    /** One turn of the loops of NtAllocateVirtualMemory, NtCreateThread, SetupPeb and SetupTeb.  Zeroing
        the page's bytes is not part of this model. */
    method MapNewPage(proc: Process, va: nat, ghost sane: bool) returns (phys: nat, ok: bool)
      requires Spaces() && proc in procs
      requires sane ==> va % 4096 == 0 && UserPage(vmm.shape.copied, proc.cr3, va / 4096)
      requires sane ==> FramesOk(vmm.Memory(), vmm.shape, SectionFrames(sections), anon)
      modifies vmm`mem, vmm`shape, vmm.pmm, vmm.pmm.bitmap
      ensures Spaces() && vmm.shape.copied == old(vmm.shape.copied) && vmm.shape.k == old(vmm.shape.k)
      ensures phys == 0 <==> old(FreeSet(vmm.pmm.used)) == {}
      ensures phys == 0 ==> !ok
      ensures ok && va % 4096 == 0 ==> OpenLeaf(vmm.mem, proc.cr3, va / 4096)
      ensures sane ==> PageDone(old(vmm.Memory()), old(vmm.shape), vmm.Memory(), vmm.shape, SectionFrames(sections),
                                anon, proc.cr3, va / 4096, 1, ok)
    {
      hide Wf, MapPageInto, FrameOf, Alloc, SectionsOk, SectionFrames, LeafChanged, SameViews, LeafEntry, FramesOk,
        FrameAt, DataFrame, Grown, Missing, CoveredByHugePage, FreeSet, Paid, AddedWithin, PathPlaces, UserPage,
        PebSlotFree, OneFits, OneSpent, Kept, OpenLeaf, GetPteInto, OpenLinks, PathsOpen;
      ghost var secs, v0 := SectionFrames(sections), vmm.Memory();
      NoFrameInFlags();
      AllocShape(v0, vmm.shape);
      TakesOne(v0, vmm.shape);
      if sane { TakesPage(v0, vmm.shape, secs, anon); }
      phys := vmm.pmm.AllocPage();
      ghost var vm, sh := vmm.Memory(), vmm.shape;
      if phys == 0 {
        if sane { NoPageFits(v0, vm, sh, secs, anon, proc.cr3, va / 4096); }
        return 0, false;
      }
      ok := vmm.MapPage(proc.cr3, va, phys, 7);
      SlotStaysFree(vm, sh, vmm.shape, proc.cr3, va);
      if ok && va % 4096 == 0 { LeafIsOpen(vmm.mem, proc.cr3, va, phys / 4096 % 0x100_0000_0000); }
      if sane {
        NewPageMapped(v0, vm, vmm.Memory(), sh, vmm.shape, secs, anon, proc.cr3, va / 4096, phys / 4096, ok);
      }
    }

    /** The page loop; `sane` says that the range lies in the window above everything handed out. */
    method AllocRange(proc: Process, va: nat, pages: nat, ghost sane: bool) returns (ok: bool)
      requires Spaces() && proc in procs
      requires sane ==> FramesOk(vmm.Memory(), vmm.shape, SectionFrames(sections), anon)
      requires sane ==> Below(grants, anon, proc.cr3, va) && va + pages * 4096 <= HEAP_MAX
      modifies this`anon, vmm`mem, vmm`shape, vmm.pmm, vmm.pmm.bitmap
      ensures Spaces() && vmm.shape.copied == old(vmm.shape.copied) && vmm.shape.k == old(vmm.shape.k)
      ensures sane ==> FramesOk(vmm.Memory(), vmm.shape, SectionFrames(sections), anon)
      ensures sane ==> exists n: nat ::
        n <= pages && anon == old(anon) + RangePages(proc.cr3, va, n) && (ok ==> n == pages)
      ensures !sane ==> anon == old(anon)
      ensures sane ==> (ok <==> old(Room(vmm.Memory(), vmm.shape, proc.cr3, PageList(va / 4096, pages), pages)))
      ensures sane ==> Kept(old(vmm.Memory()), vmm.Memory(), vmm.shape, RangePages(proc.cr3, va, pages))
      ensures sane && ok ==> RangeOpen(vmm.mem, proc.cr3, va, pages)
    {
      hide Wf, FramesOk, FrameAt, SectionsOk, SectionFrames, RangePages, WindowPage, UserPage, PebSlotFree, OneFits,
        OneSpent, Kept, Spent, Room, PageList, FreeSet, OpenLeaf, RangeOpen;
      ghost var v0, s0, r := vmm.Memory(), vmm.shape, proc.cr3;
      RangeStart(v0, s0, r, va);
      NothingOpen(vmm.mem, r, va);
      var i := 0;
      while i < pages
        invariant 0 <= i <= pages
        invariant Spaces() && vmm.shape.copied == s0.copied && vmm.shape.k == s0.k
        invariant sane ==> FramesOk(vmm.Memory(), vmm.shape, SectionFrames(sections), anon)
        invariant anon == if sane then old(anon) + RangePages(r, va, i) else old(anon)
        invariant sane ==> Spent(v0, s0, vmm.Memory(), vmm.shape, r, PageList(va / 4096, i), i)
        invariant sane ==> Kept(v0, vmm.Memory(), vmm.shape, RangePages(r, va, i))
        invariant sane ==> RangeOpen(vmm.mem, r, va, i)
      {
        ghost var vm, sh := vmm.Memory(), vmm.shape;
        if sane {
          RangePagesStep(r, va, i);
          NextPageFree(grants, old(anon), r, va, pages, i);
          WindowIsUser(sh.copied, r, va / 4096 + i);
        }
        var phys;
        phys, ok := MapNewPage(proc, va + i * 4096, sane);
        if sane {
          RangeNext(v0, s0, vm, sh, vmm.Memory(), vmm.shape, SectionFrames(sections), anon, r, va, i, pages, 1, i,
                    pages, ok);
          if ok {
            OpenNext(vm, sh, vmm.Memory(), vmm.shape, SectionFrames(sections), anon, r, va, i, pages, 1);
            anon := anon + {RangePage(r, va, i)};
          }
        }
        if phys == 0 || !ok { return false; }
        i := i + 1;
      }
      if sane { SpentFitted(v0, s0, vmm.Memory(), vmm.shape, r, PageList(va / 4096, pages), pages); }
      return true;
    }

    /** SetupTeb: a page for a new thread behind the previous one's. */
    method SetupTeb(proc: Process) returns (teb: nat)
      requires Valid() && proc in procs
      modifies this`anon, proc`nextTeb, vmm`mem, vmm`shape, vmm.pmm, vmm.pmm.bitmap
      ensures Spaces() && vmm.shape.copied == old(vmm.shape.copied)
      ensures proc.peb == 0 ==> teb == 0 && proc.nextTeb == old(proc.nextTeb) && vmm.Memory() == old(vmm.Memory())
      ensures proc.peb != 0 ==> proc.nextTeb == old(proc.nextTeb) + 0x2000
      ensures proc.peb != 0 ==> teb == if old(FreeSet(vmm.pmm.used)) == {} then 0 else old(proc.nextTeb)
      ensures old(proc.nextTeb) < 0x800_0000_0000 ==> Valid()
      ensures old(proc.nextTeb) < 0x800_0000_0000 && proc.peb != 0 ==>
        (var p := old(proc.nextTeb) / 4096;
         anon == if old(OneFits(vmm.Memory(), vmm.shape, proc.cr3, proc.nextTeb / 4096, 1))
                 then old(anon) + {(proc.cr3, p)} else old(anon))
      ensures old(proc.nextTeb) < 0x800_0000_0000 && proc.peb != 0 ==>
        (old(OneFits(vmm.Memory(), vmm.shape, proc.cr3, proc.nextTeb / 4096, 1)) ==>
         OpenLeaf(vmm.mem, proc.cr3, old(proc.nextTeb) / 4096))
      ensures old(proc.nextTeb) < 0x800_0000_0000 ==>
        Kept(old(vmm.Memory()), vmm.Memory(), vmm.shape, {(proc.cr3, old(proc.nextTeb) / 4096)})
    {
      hide Wf, FramesOk, GrantsOk, SectionsOk, SectionFrames, FreeSet, PebSlotFree, Below, OneFits, OneSpent,
        UserPage, Kept, OpenLeaf;
      if proc.peb == 0 {
        KeptAll(vmm.Memory(), vmm.Memory(), vmm.shape, {(proc.cr3, proc.nextTeb / 4096)}) by { hide *; }
        return 0;
      }
      var va := proc.nextTeb;
      ghost var sane := va < 0x800_0000_0000;
      if sane { PebPagesAreUser(vmm.shape, proc.cr3, va / 4096); }
      proc.nextTeb := proc.nextTeb + 0x2000;
      var phys, ok := MapNewPage(proc, va, sane);
      if sane {
        KeptMore(old(vmm.Memory()), vmm.Memory(), vmm.shape, if ok then {(proc.cr3, va / 4096)} else {},
                 {(proc.cr3, va / 4096)});
        if ok {
          MoreOutside(proc.cr3, va / 4096);
          anon := anon + {(proc.cr3, va / 4096)};
        }
      }
      teb := if phys == 0 then 0 else va;
    }

    /** NtAllocateVirtualMemory.  Any 64-bit size is taken; up to the sizes whose sum wraps
        (`GuardExact`) the promise about windows and frames is kept, and the call succeeds exactly when
        the guard passes and the pages and the tables they need fit in free memory. */
    method NtAllocVm(proc: Process, size: nat) returns (va: nat)
      requires Valid() && proc in procs && size < TWO64
      modifies this`anon, this`grants, proc`cursor, vmm`mem, vmm`shape, vmm.pmm, vmm.pmm.bitmap
      ensures Spaces() && vmm.shape.copied == old(vmm.shape.copied)
      ensures size <= TWO64 - old(proc.cursor) - 4096 ==>
        (va != 0 <==> && size != 0 && GuardPasses(old(proc.cursor), PagesFor(size))
                      && old(RangeRoom(proc, PagesFor(size), PagesFor(size))))
      ensures size <= TWO64 - old(proc.cursor) - 4096 ==> Valid() && Kept(old(vmm.Memory()), vmm.Memory(), vmm.shape,
        if proc.cursor == old(proc.cursor) then {} else RangePages(proc.cr3, old(proc.cursor), PagesFor(size)))
      ensures va != 0 ==> va == old(proc.cursor) && GuardPasses(va, PagesFor(size))
      ensures va != 0 && size <= TWO64 - va - 4096 ==>
        size <= PagesFor(size) * 4096 && grants == old(grants) + [Grant(proc.cr3, va, PagesFor(size), true)]
      ensures va != 0 && size <= TWO64 - va - 4096 ==> RangeOpen(vmm.mem, proc.cr3, va, PagesFor(size))
      ensures va == 0 ==> grants == old(grants)
      ensures proc.cursor == if size != 0 && GuardPasses(old(proc.cursor), PagesFor(size))
        then Advance(old(proc.cursor), PagesFor(size)) else old(proc.cursor)
    {
      hide Wf, FramesOk, GrantsOk, SectionsOk, SectionFrames, RangePages, PagesFor, GuardPasses, Advance, PebSlotFree,
        FreeSet, Kept, Room, PageList, RangeOpen;
      va := proc.cursor;
      KeptAll(vmm.Memory(), vmm.Memory(), vmm.shape, {});
      if size == 0 { return 0; }
      var pages := PagesFor(size);
      GuardExact(va, size);
      if !GuardPasses(va, pages) { return 0; }
      ghost var sane := size <= TWO64 - va - 4096;
      if sane { SaneAdvance(va, size); }
      proc.cursor := Advance(va, pages);
      ghost var before := anon;
      var ok := AllocRange(proc, va, pages, sane);
      if sane {
        ghost var n: nat :| n <= pages && anon == before + RangePages(proc.cr3, va, n) && (ok ==> n == pages);
        CommitRange(grants, before, proc.cr3, va, pages, n, ok);
        OthersBelow(proc, va, pages, n, ok, before);
        if ok { grants := grants + [Grant(proc.cr3, va, pages, true)]; }
      }
      if !ok { va := 0; }
    }

    /** Free memory covers `data` pages and the tables for a range of pages at the cursor. */
    ghost predicate RangeRoom(proc: Process, pages: nat, data: nat)
      reads this, vmm, vmm.pmm`used, proc`cursor
    {
      Room(vmm.Memory(), vmm.shape, proc.cr3, PageList(proc.cursor / 4096, pages), data)
    }

    /** The stack of NtCreateThread: four pages; the result is its top, or 0. */
    method CarveStack(proc: Process) returns (top: nat)
      requires Valid() && proc in procs
      modifies this`anon, this`grants, proc`cursor, vmm`mem, vmm`shape, vmm.pmm, vmm.pmm.bitmap
      ensures Valid() && vmm.shape.copied == old(vmm.shape.copied)
      ensures top != 0 <==> old(proc.cursor) + 0x4000 <= HEAP_MAX && old(RangeRoom(proc, 4, 4))
      ensures top != 0 ==> top == old(proc.cursor) + 0x4000
      ensures top != 0 ==> grants == old(grants) + [Grant(proc.cr3, old(proc.cursor), 4, true)]
      ensures top != 0 ==> RangeOpen(vmm.mem, proc.cr3, old(proc.cursor), 4)
      ensures top == 0 ==> grants == old(grants)
      ensures proc.cursor == old(proc.cursor) + if old(proc.cursor) + 0x4000 <= HEAP_MAX then 0x4000 else 0
      ensures Kept(old(vmm.Memory()), vmm.Memory(), vmm.shape, RangePages(proc.cr3, old(proc.cursor), 4))
    {
      hide Wf, FramesOk, GrantsOk, SectionsOk, SectionFrames, RangePages, PebSlotFree, FreeSet, Kept, Room, PageList,
        RangeOpen;
      if proc.cursor + 0x4000 > HEAP_MAX {
        KeptAll(vmm.Memory(), vmm.Memory(), vmm.shape, RangePages(proc.cr3, proc.cursor, 4));
        return 0;
      }
      var va := proc.cursor;
      proc.cursor := proc.cursor + 0x4000;
      ghost var before := anon;
      var ok := AllocRange(proc, va, 4, true);
      ghost var n: nat :| n <= 4 && anon == before + RangePages(proc.cr3, va, n) && (ok ==> n == 4);
      CommitRange(grants, before, proc.cr3, va, 4, n, ok);
      OthersBelow(proc, va, 4, n, ok, before);
      if !ok { return 0; }
      grants := grants + [Grant(proc.cr3, va, 4, true)];
      top := va + 0x4000;
    }

    /** NtCreateSection: the first unused slot gets fresh pages that no process sees yet; the handle is
        1-based, 0 a failure.  It succeeds exactly when the size is right, a slot is unused, and the
        pages are free. */
    method NtCreateSection(size: nat) returns (handle: nat)
      requires Valid() && size < TWO64
      modifies this`sections, vmm.pmm, vmm.pmm.bitmap
      ensures Valid() && handle <= 8
      ensures handle != 0 <==>
        && 0 < size && PagesFor(size) <= 32 && (exists i :: 0 <= i < 8 && !old(sections)[i].inUse)
        && PagesFor(size) <= old(|FreeSet(vmm.pmm.used)|)
      ensures handle != 0 ==> !old(sections)[handle - 1].inUse && sections[handle - 1].inUse
      ensures handle != 0 ==> forall i | 0 <= i < handle - 1 :: old(sections)[i].inUse
      ensures handle != 0 ==> sections[handle - 1].pageCount == PagesFor(size)
      ensures handle != 0 ==>
        Fresh(sections[handle - 1], PagesFor(size), old(FreeSet(vmm.pmm.used)), FreeSet(vmm.pmm.used))
      ensures forall i | 0 <= i < 8 && i != handle - 1 :: sections[i].inUse == old(sections)[i].inUse
      ensures forall i | 0 <= i < 8 && i != handle - 1 && sections[i].inUse :: sections[i] == old(sections)[i]
    {
      hide Wf, FramesOk, GrantsOk, SectionOk, SectionFrames, PagesFor, Below, PebSlotFree, FreeSet, Fresh;
      var pages := PagesFor(size);
      if size == 0 || pages > 32 { return 0; }
      var i := 0;
      while i < 8
        invariant 0 <= i <= 8 && Valid() && sections == old(sections) && vmm.pmm.used == old(vmm.pmm.used)
        invariant forall k | 0 <= k < i :: sections[k].inUse
      {
        if !sections[i].inUse {
          var ok := FillSection(i, pages);
          if ok { return i + 1; }
          return 0;
        }
        i := i + 1;
      }
      return 0;
    }

    /** Slot `i` is being filled: its first `j` pages are there. */
    ghost predicate Filling(i: nat, j: nat, pages: nat, secs: set<Frame>, frames: set<Frame>, free: set<Frame>)
      reads this, vmm, vmm.pmm, vmm.pmm.bitmap
    {
      && j <= pages && i < |sections| == 8 && sections[i].inUse && sections[i].pageCount == pages
      && vmm.Valid() && SectionOk(sections[i]) && SlotHolds(sections[i], j, frames)
      && FramesOk(vmm.Memory(), vmm.shape, secs + frames, anon)
      && Fresh(sections[i], j, free, FreeSet(vmm.pmm.used)) && |FreeSet(vmm.pmm.used)| + j == |free|
    }

    /** One turn of the page loop of NtCreateSection. */
    method TakeSectionPage(i: nat, j: nat, pages: nat, ghost secs: set<Frame>, ghost frames: set<Frame>,
                           ghost free: set<Frame>)
        returns (phys: nat)
      requires Filling(i, j, pages, secs, frames, free) && j < pages
      modifies this`sections, vmm.pmm, vmm.pmm.bitmap
      ensures if phys == 0 then FreeSet(vmm.pmm.used) == {} && Filling(i, j, pages, secs, frames, free)
              else Filling(i, j + 1, pages, secs, frames + {phys / 4096}, free)
      ensures forall k | 0 <= k < |sections| && k != i :: k < |old(sections)| && sections[k] == old(sections)[k]
    {
      hide Wf, FramesOk, SectionOk, SlotHolds, Alloc, FreeSet, Fresh;
      ghost var vm := vmm.Memory();
      AllocShape(vm, vmm.shape);
      TakesOne(vm, vmm.shape);
      SectionAlloc(vm, vmm.shape, secs + frames, anon);
      phys := vmm.pmm.AllocPage();
      if phys == 0 { return; }
      SlotExtends(sections[i], j, frames, phys);
      FreshExtends(sections[i], j, phys, free, FreeSet(vm.used));
      sections := sections[i := Section(sections[i].phys[j := phys], pages, true)];
      assert secs + (frames + {phys / 4096}) == (secs + frames) + {phys / 4096};
    }

    /** The page loop of NtCreateSection for a free slot. */
    method FillSection(i: nat, pages: nat) returns (ok: bool)
      requires Valid() && i < 8 && !sections[i].inUse && pages <= 32
      modifies this`sections, vmm.pmm, vmm.pmm.bitmap
      ensures Valid()
      ensures ok <==> pages <= old(|FreeSet(vmm.pmm.used)|)
      ensures sections[i].inUse == ok && (ok ==> sections[i].pageCount == pages)
      ensures ok ==> Fresh(sections[i], pages, old(FreeSet(vmm.pmm.used)), FreeSet(vmm.pmm.used))
      ensures forall k | 0 <= k < 8 && k != i :: sections[k] == old(sections)[k]
    {
      hide Wf, FramesOk, GrantsOk, SectionOk, SectionFrames, PagesFor, Below, SlotHolds, PebSlotFree, FreeSet, Fresh;
      ghost var secs, frames: set<Frame>, free := SectionFrames(sections), {}, FreeSet(vmm.pmm.used);
      NewSlot(sections[i], pages, free);
      assert secs + frames == secs;
      sections := sections[i := Section(sections[i].phys, pages, true)];
      var j := 0;
      while j < pages
        invariant 0 <= j <= pages && Filling(i, j, pages, secs, frames, free)
        invariant forall k | 0 <= k < 8 && k != i :: sections[k] == old(sections)[k]
      {
        var phys := TakeSectionPage(i, j, pages, secs, frames, free);
        if phys == 0 {
          sections := sections[i := sections[i].(inUse := false)];
          SlotFrames(old(sections), sections, i, {});
          FewerSections(vmm.Memory(), vmm.shape, secs + frames, SectionFrames(sections), anon);
          ReleasedSlot(sections[i], sections[i].(inUse := true));
          return false;
        }
        frames := frames + {phys / 4096};
        j := j + 1;
      }
      SlotFrames(old(sections), sections, i, frames);
      FewerSections(vmm.Memory(), vmm.shape, secs + frames, SectionFrames(sections), anon);
      return true;
    }

    /** NtMapViewOfSection: the section's frames in order; it succeeds exactly when the handle is good,
        the range stays in the window, and the tables that the pages need fit in free memory. */
    method NtMapView(proc: Process, handle: nat) returns (va: nat)
      requires Valid() && proc in procs
      modifies this`grants, proc`cursor, vmm`mem, vmm`shape, vmm.pmm, vmm.pmm.bitmap
      ensures Valid() && vmm.shape.copied == old(vmm.shape.copied)
      ensures va != 0 <==> old(ViewFits(proc, handle)) && old(RangeRoom(proc, sections[handle - 1].pageCount, 0))
      ensures va != 0 ==> va == old(proc.cursor)
      ensures va != 0 ==> grants == old(grants) + [Grant(proc.cr3, va, sections[handle - 1].pageCount, false)]
      ensures va != 0 ==> ViewShows(vmm.mem, proc.cr3, va, sections[handle - 1], sections[handle - 1].pageCount)
      ensures va != 0 ==> RangeOpen(vmm.mem, proc.cr3, va, sections[handle - 1].pageCount)
      ensures va == 0 ==> grants == old(grants)
      ensures !old(ViewFits(proc, handle)) ==> proc.cursor == old(proc.cursor) && vmm.Memory() == old(vmm.Memory())
      ensures old(ViewFits(proc, handle)) ==>
        && proc.cursor == old(proc.cursor) + sections[handle - 1].pageCount * 4096
        && Kept(old(vmm.Memory()), vmm.Memory(), vmm.shape,
                RangePages(proc.cr3, old(proc.cursor), sections[handle - 1].pageCount))
    {
      hide Wf, FramesOk, GrantsOk, FrameAt, SectionFrames, WindowPage, ViewShows, PebSlotFree, FreeSet, Kept, Room,
        PageList, RangePages, SectionOk, Below, RangeOpen;
      if handle == 0 || handle > 8 { return 0; }
      var sec := sections[handle - 1];
      if !sec.inUse { return 0; }
      va := proc.cursor;
      if va + sec.pageCount * 4096 > HEAP_MAX { return 0; }
      assert sec in sections;
      va := CarveView(proc, sec);
    }

    /** The handle names a section in use, and its pages fit the window. */
    ghost predicate ViewFits(proc: Process, handle: nat)
      reads this, proc`cursor
    {
      && 1 <= handle <= 8 && |sections| == 8 && sections[handle - 1].inUse
      && proc.cursor + sections[handle - 1].pageCount * 4096 <= HEAP_MAX
    }

    /** The second half of NtMapViewOfSection. */
    method CarveView(proc: Process, sec: Section) returns (va: nat)
      requires Valid() && proc in procs && sec in sections && sec.inUse
      requires proc.cursor + sec.pageCount * 4096 <= HEAP_MAX
      modifies this`grants, proc`cursor, vmm`mem, vmm`shape, vmm.pmm, vmm.pmm.bitmap
      ensures Valid() && vmm.shape.copied == old(vmm.shape.copied)
      ensures va != 0 <==> old(RangeRoom(proc, sec.pageCount, 0))
      ensures va != 0 ==> va == old(proc.cursor) && ViewShows(vmm.mem, proc.cr3, va, sec, sec.pageCount)
      ensures va != 0 ==> RangeOpen(vmm.mem, proc.cr3, va, sec.pageCount)
      ensures grants == if va != 0 then old(grants) + [Grant(proc.cr3, va, sec.pageCount, false)] else old(grants)
      ensures proc.cursor == old(proc.cursor) + sec.pageCount * 4096
      ensures Kept(old(vmm.Memory()), vmm.Memory(), vmm.shape, RangePages(proc.cr3, old(proc.cursor), sec.pageCount))
    {
      hide Wf, FramesOk, GrantsOk, FrameAt, SectionFrames, WindowPage, ViewShows, PebSlotFree, FreeSet, Kept, Room,
        PageList, RangePages, SectionsOk, RangeOpen;
      va := proc.cursor;
      proc.cursor := proc.cursor + sec.pageCount * 4096;
      ViewCommit(grants, anon, proc.cr3, va, sec.pageCount);
      var ok := ViewRange(proc, va, sec);
      if !ok { return 0; }
      grants := grants + [Grant(proc.cr3, va, sec.pageCount, false)];
    }

    /** The page loop of NtMapViewOfSection. */
    method ViewRange(proc: Process, va: nat, sec: Section) returns (ok: bool)
      requires Spaces() && proc in procs && sec in sections && sec.inUse
      requires FramesOk(vmm.Memory(), vmm.shape, SectionFrames(sections), anon)
      requires Below(grants, anon, proc.cr3, va) && va + sec.pageCount * 4096 <= HEAP_MAX
      modifies vmm`mem, vmm`shape, vmm.pmm, vmm.pmm.bitmap
      ensures Spaces() && vmm.shape.copied == old(vmm.shape.copied) && vmm.shape.k == old(vmm.shape.k)
      ensures FramesOk(vmm.Memory(), vmm.shape, SectionFrames(sections), anon)
      ensures ok ==> ViewShows(vmm.mem, proc.cr3, va, sec, sec.pageCount)
      ensures ok ==> RangeOpen(vmm.mem, proc.cr3, va, sec.pageCount)
      ensures ok <==> old(Room(vmm.Memory(), vmm.shape, proc.cr3, PageList(va / 4096, sec.pageCount), 0))
      ensures Kept(old(vmm.Memory()), vmm.Memory(), vmm.shape, RangePages(proc.cr3, va, sec.pageCount))
    {
      hide Wf, FramesOk, GrantsOk, FrameAt, SectionFrames, WindowPage, SectionOk, ViewShows, FreeSet, UserPage, Kept,
        Spent, OneSpent, OneFits, Room, PebSlotFree, PageList, RangePages, OpenLeaf, RangeOpen;
      ghost var v0, s0, r := vmm.Memory(), vmm.shape, proc.cr3;
      NothingOpen(vmm.mem, r, va);
      ViewStart(vmm.mem, proc.cr3, va, sec);
      RangeStart(v0, s0, r, va);
      var i := 0;
      while i < sec.pageCount
        invariant 0 <= i <= sec.pageCount
        invariant Spaces() && vmm.shape.copied == s0.copied && vmm.shape.k == s0.k
        invariant FramesOk(vmm.Memory(), vmm.shape, SectionFrames(sections), anon)
        invariant ViewShows(vmm.mem, r, va, sec, i) && RangeOpen(vmm.mem, r, va, i)
        invariant Spent(v0, s0, vmm.Memory(), vmm.shape, r, PageList(va / 4096, i), 0)
        invariant Kept(v0, vmm.Memory(), vmm.shape, RangePages(r, va, i))
      {
        ghost var vm, sh := vmm.Memory(), vmm.shape;
        ok := MapViewPage(proc, va, sec, i);
        RangeNext(v0, s0, vm, sh, vmm.Memory(), vmm.shape, SectionFrames(sections), anon, r, va, i, sec.pageCount, 0, 0,
                  0, ok);
        if !ok { return false; }
        OpenNext(vm, sh, vmm.Memory(), vmm.shape, SectionFrames(sections), anon, r, va, i, sec.pageCount, 0);
        i := i + 1;
      }
      SpentFitted(v0, s0, vmm.Memory(), vmm.shape, r, PageList(va / 4096, sec.pageCount), 0);
      return true;
    }

    /** One page of a view. */
    method MapViewPage(proc: Process, va: nat, sec: Section, i: nat) returns (ok: bool)
      requires Spaces() && proc in procs && sec in sections && sec.inUse && i < sec.pageCount
      requires FramesOk(vmm.Memory(), vmm.shape, SectionFrames(sections), anon)
      requires Below(grants, anon, proc.cr3, va) && va + sec.pageCount * 4096 <= HEAP_MAX
      requires ViewShows(vmm.mem, proc.cr3, va, sec, i)
      modifies vmm`mem, vmm`shape, vmm.pmm, vmm.pmm.bitmap
      ensures Spaces() && vmm.shape.copied == old(vmm.shape.copied) && vmm.shape.k == old(vmm.shape.k)
      ensures ok ==> ViewShows(vmm.mem, proc.cr3, va, sec, i + 1) && OpenLeaf(vmm.mem, proc.cr3, va / 4096 + i)
      ensures PageDone(old(vmm.Memory()), old(vmm.shape), vmm.Memory(), vmm.shape, SectionFrames(sections), anon,
                       proc.cr3, va / 4096 + i, 0, ok)
    {
      hide Wf, FramesOk, GrantsOk, FrameAt, SectionFrames, LeafEntry, FrameOf, LeafChanged, SameViews, WindowPage,
        SectionOk, MapPageInto, ViewShows, CoveredByHugePage, Missing, FreeSet, Paid, AddedWithin, PathPlaces, Grown,
        UserPage, PebSlotFree, OneFits, OneSpent, Kept, OpenLeaf, GetPteInto, OpenLinks, PathsOpen;
      ghost var vm, sh, secs := vmm.Memory(), vmm.shape, SectionFrames(sections);
      NoFrameInFlags();
      SectionFrame(sections, sec, i);
      SectionFrameBound(vm, sh, secs, anon, sec.phys[i] / 4096);
      NextPageFree(grants, anon, proc.cr3, va, sec.pageCount, i);
      WindowIsUser(sh.copied, proc.cr3, va / 4096 + i);
      ok := vmm.MapPage(proc.cr3, va + i * 4096, sec.phys[i], 7);
      SlotStaysFree(vm, sh, vmm.shape, proc.cr3, va + i * 4096);
      ViewPageDone(vm, vmm.Memory(), sh, vmm.shape, secs, anon, proc.cr3, va / 4096 + i, sec.phys[i] / 4096, ok);
      GrownSize(vm, vmm.Memory(), sh, vmm.shape);
      if ok {
        LeafIsOpen(vmm.mem, proc.cr3, va + i * 4096, sec.phys[i] / 4096 % 0x100_0000_0000);
        ViewExtends(vm, vmm.Memory(), sh, vmm.shape, proc.cr3, va, sec, i);
      }
    }

    /** The other processes' cursors still bound what was handed out in their spaces. */
    lemma OthersBelow(proc: Process, va: nat, pages: nat, n: nat, ok: bool, before: set<Anon>)
      requires Spaces() && proc in procs
      requires anon == before + RangePages(proc.cr3, va, n)
      requires forall q | q in procs && q != proc :: Below(grants, before, q.cr3, q.cursor)
      ensures forall q | q in procs && q != proc ::
        Below(grants, anon, q.cr3, q.cursor)
          && Below(grants + [Grant(proc.cr3, va, pages, true)], anon, q.cr3, q.cursor)
    {
      hide Wf, SectionsOk;
    }
  }

  ghost function RangePages(r: Frame, va: nat, n: nat): set<Anon> {
    set i: nat | i < n :: RangePage(r, va, i)
  }

  lemma RangePagesStep(r: Frame, va: nat, i: nat)
    ensures RangePages(r, va, 0) == {}
    ensures RangePages(r, va, i + 1) == RangePages(r, va, i) + {RangePage(r, va, i)}
  {}

  /** The entry of a page is present, and open to user mode and to writes. */
  ghost predicate OpenLeaf(m: map<Frame, seq<nat>>, r: Frame, p: nat) {
    Lookup(m, r, p * 4096).Page4K? && GetPteInto(m, r, p * 4096) % 8 == 7
  }

  /** So are the entries of a range of pages. */
  ghost predicate RangeOpen(m: map<Frame, seq<nat>>, r: Frame, va: nat, n: nat) {
    forall i: nat | i < n :: OpenLeaf(m, r, RangePage(r, va, i).1)
  }

  /** User mode can read and write every page of an open range. */
  lemma RangeRights(vm: Vm, sh: Shape, r: Frame, va: nat, n: nat, i: nat)
    requires Wf(vm, sh) && PathsOpen(vm.mem, sh) && r in sh.copied && RangeOpen(vm.mem, r, va, n) && i < n
    requires UserPage(sh.copied, r, va / 4096 + i)
    ensures var p := va / 4096 + i;
      && AccessRights.Granted(vm.mem, r, p * 4096, AccessRights.USER)
      && AccessRights.Granted(vm.mem, r, p * 4096, AccessRights.WRITE)
  {
    assert OpenLeaf(vm.mem, r, RangePage(r, va, i).1);
    hide Wf, PathsOpen, Lookup, GetPteInto, AccessRights.Granted, AccessRights.Has, UserPage, Dir, RangeOpen;
    var p := va / 4096 + i;
    UserPageIsPrivate(vm, sh, r, p);
    AccessRights.OpenHas(GetPteInto(vm.mem, r, p * 4096), AccessRights.USER);
    AccessRights.OpenHas(GetPteInto(vm.mem, r, p * 4096), AccessRights.WRITE);
    AccessRights.PrivateRights(vm, sh, r, p * 4096, AccessRights.USER);
    AccessRights.PrivateRights(vm, sh, r, p * 4096, AccessRights.WRITE);
  }

  lemma LeafIsOpen(m: map<Frame, seq<nat>>, r: Frame, va: nat, f: nat)
    requires va % 4096 == 0 && GetPteInto(m, r, va) == f * 4096 + 7 + 1 - 7 % 2
    ensures OpenLeaf(m, r, va / 4096)
  {
    hide Lookup, GetPteInto;
    GetPteIntoAgrees(m, r, va);
    SevenIsOpen(f);
    assert va / 4096 * 4096 == va;
  }

  lemma SevenIsOpen(f: nat)
    ensures (f * 4096 + 7) % 8 == 7 && Present(f * 4096 + 7)
  {}

  lemma NothingOpen(m: map<Frame, seq<nat>>, r: Frame, va: nat)
    ensures RangeOpen(m, r, va, 0)
  {}

  /** A page that keeps its view stays open. */
  lemma StaysOpen(m: map<Frame, seq<nat>>, n: map<Frame, seq<nat>>, r: Frame, p: nat)
    requires OpenLeaf(m, r, p) && Lookup(n, r, p * 4096) == Lookup(m, r, p * 4096)
    ensures OpenLeaf(n, r, p)
  {
    hide Lookup, GetPteInto;
    AccessRights.SameRaw(m, n, r, p * 4096);
  }

  /** One page more. */
  lemma OpenNext(vm: Vm, sh: Shape, vn: Vm, sn: Shape, secs: set<Frame>, anon: set<Anon>, r: Frame, va: nat, i: nat,
                 pages: nat, data: nat)
    requires PageDone(vm, sh, vn, sn, secs, anon, r, va / 4096 + i, data, true) && RangeOpen(vm.mem, r, va, i)
    requires OpenLeaf(vn.mem, r, va / 4096 + i) && sn.Root(r)
    requires i < pages && va + pages * 4096 <= HEAP_MAX
    ensures RangeOpen(vn.mem, r, va, i + 1)
  {
    hide FramesOk, OneFits, OneSpent, OpenLeaf, Lookup;
    forall j: nat | j < i + 1 ensures OpenLeaf(vn.mem, r, RangePage(r, va, j).1) {
      if j < i {
        assert OpenLeaf(vm.mem, r, RangePage(r, va, j).1);
        StaysOpen(vm.mem, vn.mem, r, va / 4096 + j);
      }
    }
  }

  /** The first `n` pages of a view show the section's frames in order. */
  ghost predicate ViewShows(m: map<Frame, seq<nat>>, r: Frame, va: nat, sec: Section, n: nat) {
    n <= |sec.phys| && forall j: nat | j < n :: FrameAt(m, r, RangePage(r, va, j).1) == Some(sec.phys[j] / 4096)
  }

  lemma ViewStart(m: map<Frame, seq<nat>>, r: Frame, va: nat, sec: Section)
    ensures ViewShows(m, r, va, sec, 0)
  {}

  lemma ViewExtends(vm: Vm, vn: Vm, sh: Shape, sn: Shape, r: Frame, va: nat, sec: Section, i: nat)
    requires Wf(vm, sh) && r in sh.copied && WindowPage(va / 4096 + i) && i < |sec.phys| && HEAP_BASE <= va
    requires va % 4096 == 0
    requires sec.phys[i] % 4096 == 0 && sec.phys[i] / 4096 < MAX_PAGES && ViewShows(vm.mem, r, va, sec, i)
    requires FrameOf(7) == 0 && PageMapped(vm, vn, sh, sn, r, va + i * 4096, sec.phys[i], 7, true)
    ensures ViewShows(vn.mem, r, va, sec, i + 1)
  {
    hide Wf, FrameAt, FrameOf, LeafChanged, SameViews, LeafEntry, Grown, SmallPage, UserPage;
    var f := sec.phys[i] / 4096;
    assert sec.phys[i] == f * 4096 && (va + i * 4096) / 4096 == va / 4096 + i;
    WindowIsUser(sh.copied, r, va / 4096 + i);
    forall j: nat | j < i + 1 ensures FrameAt(vn.mem, r, RangePage(r, va, j).1) == Some(sec.phys[j] / 4096) {
      WindowIsUser(sh.copied, r, va / 4096 + j);
      UserPageAfter(vm, vn, sh, sn, r, va + i * 4096, f, 7, true, r, va / 4096 + j);
    }
  }

  lemma SectionFrame(secs: seq<Section>, sec: Section, j: nat)
    requires SectionsOk(secs) && sec in secs && sec.inUse && j < sec.pageCount
    ensures j < |sec.phys| && sec.phys[j] / 4096 in SectionFrames(secs)
    ensures sec.phys[j] % 4096 == 0 && sec.phys[j] / 4096 * 4096 == sec.phys[j]
  {
    assert SectionOk(sec) && sec.phys[j] in sec.phys;
    var i :| 0 <= i < |secs| && secs[i] == sec;
  }

  lemma SectionFrameBound(vm: Vm, sh: Shape, secs: set<Frame>, anon: set<Anon>, f: Frame)
    requires Wf(vm, sh) && FramesOk(vm, sh, secs, anon) && f in secs
    ensures f < MAX_PAGES
  {}

  lemma ViewCommit(grants: seq<Grant>, anon: set<Anon>, r: Frame, va: nat, pages: nat)
    requires GrantsOk(grants, anon) && Below(grants, anon, r, va) && va + pages * 4096 <= HEAP_MAX
    ensures var now := grants + [Grant(r, va, pages, false)];
      GrantsOk(now, anon) && Below(grants, anon, r, va + pages * 4096) && Below(now, anon, r, va + pages * 4096)
  {
    GrantKeeps(grants, anon, r, va, pages, {}, false);
    assert anon + {} == anon;
  }

  /** The first `j` entries of a section name frames among `frames`. */
  ghost predicate SlotHolds(s: Section, j: nat, frames: set<Frame>) {
    j <= |s.phys| && forall k | 0 <= k < j :: s.phys[k] / 4096 in frames
  }

  lemma NewSlot(s: Section, pages: nat, free: set<Frame>)
    requires SectionOk(s) && pages <= 32
    ensures SectionOk(Section(s.phys, pages, true)) && SlotHolds(Section(s.phys, pages, true), 0, {})
    ensures Fresh(Section(s.phys, pages, true), 0, free, free)
  {}

  /** The first `j` frames of a section are different ones taken from the free pages. */
  ghost predicate Fresh(s: Section, j: nat, was: set<Frame>, free: set<Frame>) {
    && j <= |s.phys| && free <= was
    && (forall k | 0 <= k < j :: s.phys[k] / 4096 in was && s.phys[k] / 4096 !in free)
    && (forall k, l | 0 <= k < l < j :: s.phys[k] / 4096 != s.phys[l] / 4096)
  }

  lemma FreshExtends(s: Section, j: nat, phys: nat, was: set<Frame>, free: set<Frame>)
    requires |s.phys| == 32 && j < 32 && Fresh(s, j, was, free) && phys / 4096 in free
    ensures Fresh(Section(s.phys[j := phys], s.pageCount, true), j + 1, was, free - {phys / 4096})
  {}

  lemma ReleasedSlot(s: Section, t: Section)
    requires SectionOk(t) && s == t.(inUse := false)
    ensures SectionOk(s)
  {}

  lemma SlotExtends(s: Section, j: nat, frames: set<Frame>, phys: nat)
    requires SectionOk(s) && s.inUse && SlotHolds(s, j, frames) && j < s.pageCount && phys % 4096 == 0
    ensures |s.phys| == 32 && j < 32
    ensures var t := Section(s.phys[j := phys], s.pageCount, true);
      SectionOk(t) && SlotHolds(t, j + 1, frames + {phys / 4096})
  {
    forall a | a in s.phys[j := phys] ensures a % 4096 == 0 {
      var k :| 0 <= k < |s.phys| && s.phys[j := phys][k] == a;
      assert s.phys[k] in s.phys;
    }
  }

  /** The frames of all sections after slot `i` was rewritten. */
  lemma SlotFrames(was: seq<Section>, now: seq<Section>, i: nat, frames: set<Frame>)
    requires |was| == |now| == 8 && i < 8 && forall k | 0 <= k < 8 && k != i :: now[k] == was[k]
    requires now[i].inUse ==> SlotHolds(now[i], now[i].pageCount, frames)
    ensures SectionFrames(now) <= SectionFrames(was) + frames
  {}

  lemma SectionAlloc(vm: Vm, sh: Shape, secs: set<Frame>, anon: set<Anon>)
    requires Wf(vm, sh) && FramesOk(vm, sh, secs, anon)
    ensures var (used, phys) := Alloc(vm.used);
      && phys % 4096 == 0
      && (phys == 0 ==> FramesOk(Vm(vm.mem, used), sh, secs, anon))
      && (phys != 0 ==> FramesOk(Vm(vm.mem, used), sh, secs + {phys / 4096}, anon))
  {
    hide Wf, FramesOk;
    WfRoot(vm, sh, sh.k);
    AllocFailsIffExhausted(vm.used);
    var f := FirstFree(vm.used);
    if f < |vm.used| { SectionPageKeeps(vm, sh, secs, anon, f); }
  }

  /** Below the wrapping sizes, the guard's arithmetic is plain arithmetic. */
  lemma SaneAdvance(cursor: nat, size: nat)
    requires CursorOk(cursor) && 0 < size <= TWO64 - cursor - 4096 && GuardPasses(cursor, PagesFor(size))
    ensures Advance(cursor, PagesFor(size)) == cursor + PagesFor(size) * 4096 <= HEAP_MAX
    ensures size <= PagesFor(size) * 4096
  {
    GuardExact(cursor, size);
  }

  lemma CommitRange(grants: seq<Grant>, anon: set<Anon>, r: Frame, va: nat, pages: nat, n: nat, ok: bool)
    requires GrantsOk(grants, anon) && Below(grants, anon, r, va) && va + pages * 4096 <= HEAP_MAX
    requires n <= pages && (ok ==> n == pages)
    ensures var more := anon + RangePages(r, va, n);
      && GrantsOk(grants, more) && Below(grants, more, r, va + pages * 4096)
      && (ok ==> GrantsOk(grants + [Grant(r, va, pages, true)], more)
                 && Below(grants + [Grant(r, va, pages, true)], more, r, va + pages * 4096))
  {
    GrantKeeps(grants, anon, r, va, pages, RangePages(r, va, n), ok);
  }

  /** The next page of a range above the cursor is in the window and not anonymous yet. */
  lemma NextPageFree(grants: seq<Grant>, anon: set<Anon>, r: Frame, va: nat, pages: nat, i: nat)
    requires Below(grants, anon, r, va) && va + pages * 4096 <= HEAP_MAX && i < pages
    ensures (va + i * 4096) % 4096 == 0 && (va + i * 4096) / 4096 == va / 4096 + i
    ensures WindowPage(va / 4096 + i)
    ensures RangePage(r, va, i) !in anon + RangePages(r, va, i)
  {}

  lemma CreateUsedGrows(vm: Vm, sh: Shape)
    requires Wf(vm, sh)
    ensures var vn := CreateUserPml4(vm, sh.k).0;
      |vn.used| == |vm.used| && FreeSet(vn.used) <= FreeSet(vm.used)
  {
    hide Wf, Present, FrameOf, Lookup, SetEntry;
    CreateCases(vm, sh);
  }

  /** A user page of a new space: its slot was empty in the kernel's root. */
  lemma NewcomerIsEmpty(vm: Vm, vn: Vm, sh: Shape, sn: Shape, r: Frame)
    requires sn.copied == sh.copied[r := CopiedSlots(vm.mem, sh.k)]
    requires forall va: nat :: (Lookup(vn.mem, r, va) ==
      if Pml4Idx(va) == 0 && PdptIdx(va) >= 4 then NotMapped else Lookup(vm.mem, sh.k, va))
    ensures forall p: nat | UserPage(sn.copied, r, p) :: Lookup(vn.mem, r, p * 4096) == NotMapped
  {
    forall p: nat | UserPage(sn.copied, r, p) ensures Lookup(vn.mem, r, p * 4096) == NotMapped {
      IndexBounds(p * 4096);
      hide Present, Huge, FrameOf, Entry, Pml4Idx, PdptIdx, PdIdx, PtIdx;
      var a := Pml4Idx(p * 4096);
      assert a != 0 ==> !Present(Entry(vm.mem, sh.k, a));
    }
  }

  /** Nothing moves in the user pages when no view changed and any newcomer's user pages are empty. */
  lemma SameWindow(vm: Vm, vn: Vm, sh: Shape, sn: Shape, secs: set<Frame>, anon: set<Anon>)
    requires FramesOk(vm, sh, secs, anon) && SameViews(vm, vn, sh) && NewTables(vm, sh, sn)
    requires |vn.used| == |vm.used| && FreeSet(vn.used) <= FreeSet(vm.used)
    requires forall r | r in sh.copied :: r in sn.copied && sn.copied[r] == sh.copied[r]
    requires forall r, p: nat | r !in sh.copied && UserPage(sn.copied, r, p) ::
      Lookup(vn.mem, r, p * 4096) == NotMapped
    ensures FramesOk(vn, sn, secs, anon)
  {
    hide Lookup, Pml4Idx, PdptIdx, FrameOf, FreeSet, DataFrame;
    forall r, p: nat | UserPage(sn.copied, r, p)
      ensures if r in sh.copied then FrameAt(vn.mem, r, p) == FrameAt(vm.mem, r, p) else FrameAt(vn.mem, r, p) == None
      ensures UserPageOk(vn, sn, r, p)
    {
      if r in sh.copied {
        assert UserPageOk(vm, sh, r, p);
        if FrameAt(vm.mem, r, p).Some? { DataKept(vm, vn, sh, sn, FrameAt(vm.mem, r, p).value); }
      }
    }
    forall g | g in secs ensures DataFrame(vn, sn, g) { DataKept(vm, vn, sh, sn, g); }
    forall a | a in anon ensures AnonOk(vn, sn, secs, a) { assert AnonOk(vm, sh, secs, a); }
    forall a, r, p: nat | a in anon && UserPage(sn.copied, r, p) && SameFrame(vn.mem, r, p, a) ensures a == (r, p) {
      assert AnonOk(vm, sh, secs, a);
      assert SameFrame(vm.mem, r, p, a);
    }
  }

  lemma DataKept(vm: Vm, vn: Vm, sh: Shape, sn: Shape, f: Frame)
    requires DataFrame(vm, sh, f) && NewTables(vm, sh, sn)
    requires |vn.used| == |vm.used| && FreeSet(vn.used) <= FreeSet(vm.used)
    ensures DataFrame(vn, sn, f)
  {
    assert f !in FreeSet(vm.used);
    UsedKept(vm, vn);
    hide FreeSet;
  }

  lemma AnonymousRoots(vm: Vm, sh: Shape, secs: set<Frame>, anon: set<Anon>)
    requires FramesOk(vm, sh, secs, anon)
    ensures forall a | a in anon :: a.0 in sh.copied
  {}

  /** The zero-initialised section table. */
  function NoSections(): (secs: seq<Section>)
    ensures |secs| == 8 && forall s | s in secs :: !s.inUse && |s.phys| == 32 && forall a | a in s.phys :: a == 0
  {
    seq(8, _ => Section(seq(32, _ => 0), 0, false))
  }

  lemma EmptyWindow(vm: Vm, sh: Shape)
    requires sh.copied == map[]
    ensures SectionsOk(NoSections()) && FramesOk(vm, sh, SectionFrames(NoSections()), {})
  {
    hide FrameAt;
    assert SectionFrames(NoSections()) == {};
  }

  /** Taking a page leaves the tables as they are. */
  lemma AllocShape(vm: Vm, sh: Shape)
    requires Wf(vm, sh)
    ensures Wf(Vm(vm.mem, Alloc(vm.used).0), sh)
  {
    WfRoot(vm, sh, sh.k);
    hide Wf;
    var f := FirstFree(vm.used);
    if f < |vm.used| { UsedGrows(vm, sh, f); }
  }

  // ---- Pages one by one -------------------------------------------------------------------

  lemma KeptMore(vm: Vm, vn: Vm, sh: Shape, a: set<Anon>, b: set<Anon>)
    requires Kept(vm, vn, sh, a) && a <= b
    ensures Kept(vm, vn, sh, b)
  {
    hide Lookup;
  }

  /** Page `p` of space `r` was mapped, or not: to a page of its own that was taken for it if `data` is
      1, and to one that was there before if it is 0. */
  ghost predicate PageDone(v0: Vm, s0: Shape, vm: Vm, sh: Shape, secs: set<Frame>, anon: set<Anon>, r: Frame, p: nat,
                           data: nat, ok: bool) {
    && FramesOk(vm, sh, secs, if ok && data == 1 then anon + {(r, p)} else anon)
    && Charged(v0, s0, vm, sh, r, p, data, ok)
  }

  lemma NoPageFits(v0: Vm, vm: Vm, sh: Shape, secs: set<Frame>, anon: set<Anon>, r: Frame, p: nat)
    requires |FreeSet(v0.used)| == 0 && vm.mem == v0.mem && FramesOk(vm, sh, secs, anon)
    ensures PageDone(v0, sh, vm, sh, secs, anon, r, p, 1, false)
  {
    hide PathPlaces, FreeSet, Lookup, FramesOk;
  }

  /** A taken page was mapped, or not. */
  lemma NewPageMapped(v0: Vm, vm: Vm, vn: Vm, sh: Shape, sn: Shape, secs: set<Frame>, anon: set<Anon>, r: Frame,
                      p: nat, f: Frame, ok: bool)
    requires Wf(vm, sh) && Wf(vn, sn) && UserPage(sh.copied, r, p) && FramesOk(vm, sh, secs, anon)
    requires f < MAX_PAGES && DataFrame(vm, sh, f) && f !in secs && FrameOf(7) == 0
    requires forall s, q: nat | UserPage(sh.copied, s, q) :: FrameAt(vm.mem, s, q) != Some(f)
    requires vm.mem == v0.mem && |FreeSet(vm.used)| + 1 == |FreeSet(v0.used)|
    requires ok <==> !CoveredByHugePage(vm.mem, r, p * 4096) && Missing(vm.mem, r, p * 4096) <= |FreeSet(vm.used)|
    requires Grown(vm, vn, sh, sn) && Paid(vm, vn, sh, sn) && AddedWithin(sh, sn, PathPlaces(sn, r, p * 4096))
    requires ok ==> PathPlaces(sn, r, p * 4096) <= sn.at.Keys
    requires if ok then LeafChanged(vm, vn, sn, r, p * 4096, LeafEntry(f * 4096, 7)) else SameViews(vm, vn, sn)
    ensures PageDone(v0, sh, vn, sn, secs, anon, r, p, 1, ok)
  {
    assert r in sh.copied && sn.k == sh.k && sn.copied == sh.copied;
    assert UserPageOk(vm, sh, r, p);
    hide Wf, FramesOk, DataFrame, FrameOf, UserPage, FrameAt, CoveredByHugePage, Missing, FreeSet, Grown, Paid,
      AddedWithin, PathPlaces, LeafChanged, SameViews, LeafEntry, OneFits, OneSpent, Lookup, SmallPage;
    GrownSize(vm, vn, sh, sn);
    assert p * 4096 / 4096 == p;
    AnonPageMapped(vm, vn, sh, sn, secs, anon, r, p * 4096, f, 7, ok);
    TakenPageCosts(v0, vm, vn, sh, sn, r, p, ok);
    MappedKeeps(vm, vn, sh, sn, r, p, LeafEntry(f * 4096, 7), ok);
  }

  /** A page of a section was mapped, or not. */
  lemma ViewPageFrames(vm: Vm, vn: Vm, sh: Shape, sn: Shape, secs: set<Frame>, anon: set<Anon>, r: Frame, p: nat,
                       f: Frame, ok: bool)
    requires Wf(vm, sh) && Wf(vn, sn) && UserPage(sh.copied, r, p) && FramesOk(vm, sh, secs, anon)
    requires (r, p) !in anon && f < MAX_PAGES && f in secs && FrameOf(7) == 0 && Grown(vm, vn, sh, sn)
    requires if ok then LeafChanged(vm, vn, sn, r, p * 4096, LeafEntry(f * 4096, 7)) else SameViews(vm, vn, sn)
    ensures FramesOk(vn, sn, secs, anon)
  {
    hide Wf, FramesOk, FrameOf, UserPage, FrameAt, FreeSet, Grown, LeafChanged, SameViews, LeafEntry, Lookup;
    GrownSize(vm, vn, sh, sn);
    assert p * 4096 / 4096 == p;
    ViewPageMapped(vm, vn, sh, sn, secs, anon, r, p * 4096, f, 7, ok);
  }

  lemma ViewPageDone(vm: Vm, vn: Vm, sh: Shape, sn: Shape, secs: set<Frame>, anon: set<Anon>, r: Frame, p: nat,
                     f: Frame, ok: bool)
    requires Wf(vm, sh) && Wf(vn, sn) && UserPage(sh.copied, r, p) && FramesOk(vm, sh, secs, anon)
    requires (r, p) !in anon && f < MAX_PAGES && f in secs && FrameOf(7) == 0
    requires ok <==> !CoveredByHugePage(vm.mem, r, p * 4096) && Missing(vm.mem, r, p * 4096) <= |FreeSet(vm.used)|
    requires Grown(vm, vn, sh, sn) && Paid(vm, vn, sh, sn) && AddedWithin(sh, sn, PathPlaces(sn, r, p * 4096))
    requires ok ==> PathPlaces(sn, r, p * 4096) <= sn.at.Keys
    requires if ok then LeafChanged(vm, vn, sn, r, p * 4096, LeafEntry(f * 4096, 7)) else SameViews(vm, vn, sn)
    ensures PageDone(vm, sh, vn, sn, secs, anon, r, p, 0, ok)
  {
    assert r in sh.copied && sn.k == sh.k && sn.copied == sh.copied;
    assert UserPageOk(vm, sh, r, p);
    hide Wf, FramesOk, DataFrame, FrameOf, UserPage, FrameAt, CoveredByHugePage, Missing, FreeSet, Grown, Paid,
      AddedWithin, PathPlaces, LeafChanged, SameViews, LeafEntry, OneFits, OneSpent, Lookup, SmallPage;
    ViewPageFrames(vm, vn, sh, sn, secs, anon, r, p, f, ok);
    MappedPageCosts(vm, vn, sh, sn, r, p, ok);
    MappedKeeps(vm, vn, sh, sn, r, p, LeafEntry(f * 4096, 7), ok);
  }

  /** Consecutive page numbers. */
  ghost function PageList(p: nat, n: nat): (ps: seq<nat>)
    ensures |ps| == n
  {
    seq(n, i => p + i)
  }

  lemma PageListStep(p: nat, i: nat, n: nat)
    requires i < n
    ensures PageList(p, 0) == [] && PageList(p, i + 1) == PageList(p, i) + [p + i]
    ensures PageList(p, n) == PageList(p, i + 1) + PageList(p + i + 1, n - i - 1)
  {}

  lemma RangeStart(v0: Vm, s0: Shape, r: Frame, va: nat)
    ensures RangePages(r, va, 0) == {} && PageList(va / 4096, 0) == []
    ensures Spent(v0, s0, v0, s0, r, PageList(va / 4096, 0), 0) && Kept(v0, v0, s0, RangePages(r, va, 0))
  {
    hide Lookup, FreeSet, Spent;
    RangePagesStep(r, va, 0);
    NothingSpent(v0, s0, r);
  }

  /** One page of a range: it costs `more` data pages, and `total` in all. */
  lemma RangeNext(v0: Vm, s0: Shape, vm: Vm, sh: Shape, vn: Vm, sn: Shape, secs: set<Frame>, anon: set<Anon>, r: Frame,
                  va: nat, i: nat, pages: nat, more: nat, data: nat, total: nat, ok: bool)
    requires i < pages && data + more <= total && Spent(v0, s0, vm, sh, r, PageList(va / 4096, i), data)
    requires sn.k == sh.k && sn.copied == sh.copied
    requires PageDone(vm, sh, vn, sn, secs, anon, r, va / 4096 + i, more, ok)
    requires Kept(v0, vm, sh, RangePages(r, va, i))
    ensures ok ==> Spent(v0, s0, vn, sn, r, PageList(va / 4096, i + 1), data + more)
    ensures ok ==> Kept(v0, vn, sn, RangePages(r, va, i + 1))
    ensures !ok ==> !Room(v0, s0, r, PageList(va / 4096, pages), total)
    ensures Kept(v0, vn, sn, RangePages(r, va, pages))
  {
    hide FramesOk, OneFits, OneSpent, Spent, Kept, Room, PageList, FreeSet, RangePages;
    var p := va / 4096;
    PageListStep(p, i, pages);
    NextFits(v0, s0, vm, sh, r, PageList(p, i), data, p + i, more);
    RangePagesStep(r, va, i);
    RangeGrows(r, va, i, pages);
    if ok {
      NextSpent(v0, s0, vm, sh, vn, sn, r, PageList(p, i), data, p + i, more);
      KeptTwice(v0, vm, vn, sh, sn, RangePages(r, va, i), {(r, p + i)}, RangePages(r, va, i + 1));
      KeptMore(v0, vn, sh, RangePages(r, va, i + 1), RangePages(r, va, pages));
      SameRoots(v0, vn, sh, sn, RangePages(r, va, i + 1));
    } else {
      KeptTwice(v0, vm, vn, sh, sn, RangePages(r, va, i), {}, RangePages(r, va, pages));
      if Room(v0, s0, r, PageList(p, pages), total) {
        PrefixFits(v0, s0, r, PageList(p, i + 1), PageList(p + i + 1, pages - i - 1), data + more, total);
      }
    }
    SameRoots(v0, vn, sh, sn, RangePages(r, va, pages));
  }

  lemma RangeGrows(r: Frame, va: nat, i: nat, n: nat)
    requires i < n
    ensures RangePages(r, va, i) <= RangePages(r, va, i + 1) <= RangePages(r, va, n)
  {}

  // ---- The pages of SetupPeb ---------------------------------------------------------------

  /** The PEB, the loader data, the parameters and the process heap. */
  function PebPage(r: Frame, k: nat): Anon { (r, PEB_VA / 4096 + k) }

  ghost function PebPages(r: Frame, n: nat): set<Anon> { RangePages(r, PEB_VA, n) }

  ghost function PebList(n: nat): (ps: seq<nat>) { PageList(PEB_VA / 4096, n) }

  lemma PebStart(v0: Vm, s0: Shape, r: Frame)
    ensures PebPages(r, 0) == {} && Spent(v0, s0, v0, s0, r, PebList(0), 0) && Kept(v0, v0, s0, PebPages(r, 0))
  {
    hide Lookup, FreeSet, Spent, Kept, PageList, RangePages;
    RangeStart(v0, s0, r, PEB_VA);
  }

  /** Those of the first `n` pages that were mapped are open. */
  ghost predicate PebOpen(m: map<Frame, seq<nat>>, r: Frame, anon: set<Anon>, n: nat) {
    forall k: nat | k < n && PebPage(r, k) in anon :: OpenLeaf(m, r, PEB_VA / 4096 + k)
  }

  lemma PebNotYet(was: set<Anon>, anon: set<Anon>, r: Frame, k: nat)
    requires PebPage(r, k) !in was && anon <= was + PebPages(r, k)
    ensures PebPage(r, k) !in anon
  {}

  lemma PebStaysOpen(vm: Vm, sh: Shape, vn: Vm, sn: Shape, secs: set<Frame>, anon: set<Anon>, r: Frame, k: nat,
                     ok: bool)
    requires PageDone(vm, sh, vn, sn, secs, anon, r, PEB_VA / 4096 + k, 1, ok) && PebOpen(vm.mem, r, anon, k)
    requires k < 4 && sn.Root(r) && PebPage(r, k) !in anon && (ok ==> OpenLeaf(vn.mem, r, PEB_VA / 4096 + k))
    ensures PebOpen(vn.mem, r, if ok then anon + {PebPage(r, k)} else anon, k + 1)
  {
    hide FramesOk, OneFits, OneSpent, OpenLeaf, Lookup;
    forall j: nat | j < k && PebPage(r, j) in anon ensures OpenLeaf(vn.mem, r, PEB_VA / 4096 + j) {
      StaysOpen(vm.mem, vn.mem, r, PEB_VA / 4096 + j);
    }
  }

  lemma PebSets(was: set<Anon>, anon: set<Anon>, r: Frame, k: nat)
    requires PebPage(r, k) !in was && was <= anon <= was + PebPages(r, k)
    ensures var all, a := was + PebPages(r, k + 1), PebPage(r, k);
      && PebPages(r, k) <= PebPages(r, k + 1) && anon <= all && anon != all && anon + {a} <= all
      && (anon + {a} == all <==> anon == was + PebPages(r, k))
  {
    RangePagesStep(r, PEB_VA, k);
    assert PebPage(r, k) !in PebPages(r, k);
  }

  lemma PebFewer(v0: Vm, s0: Shape, r: Frame, k: nat)
    ensures Room(v0, s0, r, PebList(k + 1), k + 1) ==> Room(v0, s0, r, PebList(k), k)
  {
    hide Room, FreeSet, PageList;
    PageListStep(PEB_VA / 4096, k, k + 1);
    if Room(v0, s0, r, PebList(k + 1), k + 1) {
      PrefixFits(v0, s0, r, PebList(k), [PEB_VA / 4096 + k], k, k + 1);
    }
  }

  lemma PebNext(v0: Vm, s0: Shape, vm: Vm, sh: Shape, vn: Vm, sn: Shape, secs: set<Frame>, anon: set<Anon>, r: Frame,
                k: nat, ok: bool, all: bool)
    requires sn.k == sh.k && sn.copied == sh.copied
    requires if all then Spent(v0, s0, vm, sh, r, PebList(k), k) else !Room(v0, s0, r, PebList(k), k)
    requires PageDone(vm, sh, vn, sn, secs, anon, r, PEB_VA / 4096 + k, 1, ok) && Kept(v0, vm, sh, PebPages(r, k))
    ensures if all && ok then Spent(v0, s0, vn, sn, r, PebList(k + 1), k + 1)
            else !Room(v0, s0, r, PebList(k + 1), k + 1)
    ensures Kept(v0, vn, sn, PebPages(r, k + 1))
  {
    hide FramesOk, OneFits, OneSpent, Spent, Kept, Room, PageList, FreeSet, RangePages;
    var p := PEB_VA / 4096;
    PageListStep(p, k, k + 1);
    RangePagesStep(r, PEB_VA, k);
    PebFewer(v0, s0, r, k);
    KeptTwice(v0, vm, vn, sh, sn, PebPages(r, k), if ok then {PebPage(r, k)} else {}, PebPages(r, k + 1));
    SameRoots(v0, vn, sh, sn, PebPages(r, k + 1));
    if all {
      NextFits(v0, s0, vm, sh, r, PebList(k), k, p + k, 1);
      if ok { NextSpent(v0, s0, vm, sh, vn, sn, r, PebList(k), k, p + k, 1); }
    }
  }

  // ---- A new process -----------------------------------------------------------------------

  lemma PebPagesOwned(r: Frame)
    ensures forall a | a in PebPages(r, 4) :: a.0 == r
  {}

  lemma NewBelow(grants: seq<Grant>, anon: set<Anon>, r: Frame)
    requires (forall g | g in grants :: g.root != r) && forall a | a in anon :: a.0 != r
    ensures Below(grants, anon, r, HEAP_BASE)
  {}

  lemma PebDir(k: nat)
    requires k < 4
    ensures Dir((PEB_VA / 4096 + k) * 4096) == [15, 511, 496]
    ensures Pml4Idx((PEB_VA / 4096 + k) * 4096) == 15 && PdptIdx((PEB_VA / 4096 + k) * 4096) == 511
  {
    assert (PEB_VA / 4096 + k) * 4096 == PEB_VA + k * 4096;
    match k { case 0 => case 1 => case 2 => case _ => assert k == 3; }
  }

  ghost function PebPath(sh: Shape, r: Frame): set<Pos> {
    {sh.Reach(r, [15]), sh.Reach(r, [15, 511]), sh.Reach(r, [15, 511, 496])}
  }

  lemma PebPathIs(sh: Shape, r: Frame, k: nat)
    requires k < 4
    ensures PathPlaces(sh, r, (PEB_VA / 4096 + k) * 4096) == PebPath(sh, r)
  {
    hide Dir, Pml4Idx, PdptIdx, PdIdx;
    PebDir(k);
  }

  ghost predicate PathIs(sh: Shape, r: Frame, q: nat, path: set<Pos>) { PathPlaces(sh, r, q * 4096) == path }

  /** Pages behind one page table need its path once. */
  lemma {:induction false} OnePath(sh: Shape, r: Frame, p: nat, n: nat, path: set<Pos>)
    requires n > 0 && forall q: nat | p <= q < p + n :: PathIs(sh, r, q, path)
    ensures Places(sh, r, PageList(p, n)) == path
  {
    hide PageList, PathPlaces, Places;
    assert n - 1 + 1 == n;
    PageListStep(p, n - 1, n);
    NextPlaces(sh, r, PageList(p, n - 1), p + (n - 1));
    assert PathIs(sh, r, p + (n - 1), path);
    if n == 1 {
      NoPlaces(sh, r);
    } else {
      OnePath(sh, r, p, n - 1, path);
    }
  }

  lemma PebPlaces(sh: Shape, r: Frame)
    ensures Places(sh, r, PebList(4)) == PebPath(sh, r)
  {
    hide PathPlaces, Places, PebPath;
    forall q: nat | PEB_VA / 4096 <= q < PEB_VA / 4096 + 4 ensures PathIs(sh, r, q, PebPath(sh, r)) {
      PebPathIs(sh, r, q - PEB_VA / 4096);
    }
    OnePath(sh, r, PEB_VA / 4096, 4, PebPath(sh, r));
  }

  lemma NoPlaces(sh: Shape, r: Frame)
    ensures Places(sh, r, []) == {}
  {}

  lemma NewPath(v0: Vm, s0: Shape, sh: Shape, r: Frame)
    requires Wf(v0, s0) && !s0.Root(r) && PebSlotFree(sh) && sh.k == s0.k && r in sh.copied
    requires sh.at.Keys == s0.at.Keys + {Pos(r, []), Pos(r, [0])}
    ensures PebPath(sh, r) - sh.at.Keys == {Pos(r, [15]), Pos(r, [15, 511]), Pos(r, [15, 511, 496])}
  {
    hide Wf;
    assert sh.Reach(r, [15]) == Pos(r, [15]) && sh.Reach(r, [15, 511]) == Pos(r, [15, 511])
      && sh.Reach(r, [15, 511, 496]) == Pos(r, [15, 511, 496]);
    NoTableOf(v0, s0, r, [15]);
    NoTableOf(v0, s0, r, [15, 511]);
    NoTableOf(v0, s0, r, [15, 511, 496]);
    assert [15][0] != [0][0] && |[15, 511]| == 2 && |[15, 511, 496]| == 3;
  }

  lemma ThreePlaces(p: Pos, q: Pos, s: Pos)
    requires |p.path| == 1 && |q.path| == 2 && |s.path| == 3
    ensures |{p, q, s}| == 3
  {
    assert {p, q, s} == {p} + {q} + {s};
  }

  /** The four pages lie behind one page table, which a new space lacks with the two tables above it. */
  lemma PebNeedsThree(vm: Vm, sh: Shape, s0: Shape, v0: Vm, r: Frame)
    requires Wf(v0, s0) && !s0.Root(r) && PebSlotFree(sh) && sh.k == s0.k && r in sh.copied
    requires sh.at.Keys == s0.at.Keys + {Pos(r, []), Pos(r, [0])}
    ensures Needed(sh, r, PebList(4)) == 3
    ensures Room(vm, sh, r, PebList(4), 4) <==> |FreeSet(vm.used)| >= 7
  {
    hide Wf, Places, PebList, FreeSet, PebPath, PebSlotFree;
    PebPlaces(sh, r);
    NewPath(v0, s0, sh, r);
    ThreePlaces(Pos(r, [15]), Pos(r, [15, 511]), Pos(r, [15, 511, 496]));
  }

  lemma NoTableOf(vm: Vm, sh: Shape, r: Frame, path: seq<nat>)
    requires Wf(vm, sh) && !sh.Root(r)
    ensures Pos(r, path) !in sh.at
  {
    hide SlotOk, RootOk;
    if Pos(r, path) in sh.at { WfTable(vm, sh, Pos(r, path)); }
  }

  lemma SpaceTakesTwo(vm: Vm, vn: Vm, sh: Shape)
    requires Wf(vm, sh) && vn == CreateUserPml4(vm, sh.k).0 && CreateUserPml4(vm, sh.k).1.Some?
    ensures |FreeSet(vn.used)| == |FreeSet(vm.used)| - 2
  {
    hide CreateUserPml4, SlotOk, TableOk, RootOk, SetEntry;
    CreateCases(vm, sh);
    var r := CreateUserPml4(vm, sh.k).1.value;
    var d :| SpaceAdded(vm, vn, sh, r, d);
    FreeSetUpdate(vm.used, r);
    FreeSetUpdate(vm.used[r := true], d);
    assert r in FreeSet(vm.used) && d in FreeSet(vm.used[r := true]);
  }

  lemma OldSpacesKept(vm: Vm, v1: Vm, v2: Vm, sh: Shape, s2: Shape, r: Frame, done: set<Anon>)
    requires SameViews(vm, v1, sh) && Kept(v1, v2, s2, done) && !sh.Root(r) && forall a | a in done :: a.0 == r
    requires s2.k == sh.k && forall s | s in sh.copied :: s in s2.copied
    ensures Kept(vm, v2, sh, {})
  {
    hide Lookup;
  }

  /** What a new space and its PEB pages mean for free memory and for the spaces there were. */
  lemma ProcessMade(vm: Vm, v1: Vm, v2: Vm, sh: Shape, s1: Shape, s2: Shape, r: Frame)
    requires Wf(vm, sh) && !sh.Root(r) && PebSlotFree(s1) && s1.k == sh.k && s1.copied.Keys == sh.copied.Keys + {r}
    requires s1.at.Keys == sh.at.Keys + {Pos(r, []), Pos(r, [0])} && |FreeSet(v1.used)| == |FreeSet(vm.used)| - 2
    requires SameViews(vm, v1, sh) && Kept(v1, v2, s2, PebPages(r, 4)) && s2.k == s1.k && s2.copied == s1.copied
    ensures Room(v1, s1, r, PebList(4), 4) <==> |FreeSet(vm.used)| >= 9
    ensures Kept(vm, v2, sh, {})
  {
    hide Wf, PebSlotFree, FreeSet, SameViews, Kept, PebPages, PebList, Room, Needed;
    PebNeedsThree(v1, s1, sh, vm, r);
    PebPagesOwned(r);
    OldSpacesKept(vm, v1, v2, sh, s2, r, PebPages(r, 4));
  }
}
