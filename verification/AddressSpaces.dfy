/** Address spaces over time: the boot identity map (boot/uefi/bootloader.cpp), the creation of user
    spaces and the KUSER_SHARED_DATA page (kernel/mm/virtual_memory.cpp), and what any run of
    mapping operations leaves untouched. */
module AddressSpaces {
  import opened PmmSpec
  import opened PageTables
  import opened Wrappers

  // ---- The boot identity map ------------------------------------------------------

  function PdEntry(i: nat): nat { i * 0x20_0000 + 0x83 }

  /** The six pages BuildPageTables fills, starting at page `pt`. */
  ghost function BootTables(pt: Frame): map<Frame, seq<nat>> {
    map[
      pt := Zeros()[0 := (pt + 1) * 4096 + 3],
      pt + 1 := Zeros()[0 := (pt + 2) * 4096 + 3][1 := (pt + 3) * 4096 + 3]
                       [2 := (pt + 4) * 4096 + 3][3 := (pt + 5) * 4096 + 3],
      pt + 2 := seq(512, i requires 0 <= i < 512 => PdEntry(i)),
      pt + 3 := seq(512, i requires 0 <= i < 512 => PdEntry(i + 512)),
      pt + 4 := seq(512, i requires 0 <= i < 512 => PdEntry(i + 1024)),
      pt + 5 := seq(512, i requires 0 <= i < 512 => PdEntry(i + 1536))]
  }

  ghost function BootShape(pt: Frame): Shape {
    Shape(pt, map[], map[
      Pos(pt, []) := pt, Pos(pt, [0]) := pt + 1,
      Pos(pt, [0, 0]) := pt + 2, Pos(pt, [0, 1]) := pt + 3, Pos(pt, [0, 2]) := pt + 4, Pos(pt, [0, 3]) := pt + 5])
  }

  method BuildPageTables(pt: Frame) returns (m: map<Frame, seq<nat>>)
    ensures m == BootTables(pt)
  {
    var pd0: seq<nat>, pd1: seq<nat>, pd2: seq<nat>, pd3: seq<nat> := Zeros(), Zeros(), Zeros(), Zeros();
    var i := 0;
    while i < 512
      invariant 0 <= i <= 512
      invariant |pd0| == 512 && |pd1| == 512 && |pd2| == 512 && |pd3| == 512
      invariant forall j | 0 <= j < i :: pd0[j] == PdEntry(j) && pd1[j] == PdEntry(j + 512)
      invariant forall j | 0 <= j < i :: pd2[j] == PdEntry(j + 1024) && pd3[j] == PdEntry(j + 1536)
    {
      pd0 := pd0[i := PdEntry(i)];
      pd1 := pd1[i := PdEntry(i + 512)];
      pd2 := pd2[i := PdEntry(i + 1024)];
      pd3 := pd3[i := PdEntry(i + 1536)];
      i := i + 1;
    }
    var pml4: seq<nat> := Zeros()[0 := (pt + 1) * 4096 + 3];
    var pdpt: seq<nat> := Zeros()[0 := (pt + 2) * 4096 + 3][1 := (pt + 3) * 4096 + 3];
    pdpt := pdpt[2 := (pt + 4) * 4096 + 3][3 := (pt + 5) * 4096 + 3];
    m := map[];
    m := m[pt := pml4];
    m := m[pt + 1 := pdpt];
    m := m[pt + 2 := pd0];
    m := m[pt + 3 := pd1];
    m := m[pt + 4 := pd2];
    m := m[pt + 5 := pd3];
    assert pd0 == BootTables(pt)[pt + 2];
    assert pd1 == BootTables(pt)[pt + 3];
    assert pd2 == BootTables(pt)[pt + 4];
    assert pd3 == BootTables(pt)[pt + 5];
  }

  lemma BootEntries(pt: Frame, i: nat)
    requires pt + 5 < MAX_PAGES && i < 512
    ensures var m := BootTables(pt);
      && Entry(m, pt, i) == (if i == 0 then (pt + 1) * 4096 + 3 else 0)
      && Entry(m, pt + 1, i) == (if i < 4 then (pt + 2 + i) * 4096 + 3 else 0)
      && (forall k: nat | k < 4 :: Entry(m, pt + 2 + k, i) == PdEntry(i + 512 * k))
  {}

  lemma DirectoryEntryFields(f: Frame)
    requires f < MAX_PAGES
    ensures Present(f * 4096 + 3) && !Huge(f * 4096 + 3) && FrameOf(f * 4096 + 3) == f
    ensures !Present(0)
  {
    Fields(f, 3);
    EvenPlus(f * 16, 0);
  }

  lemma PdEntryFields(i: nat)
    requires i < 2048
    ensures Present(PdEntry(i)) && Huge(PdEntry(i)) && PdEntry(i) / 0x20_0000 % 0x8000_0000 == i
  {}

  /** The boot map is a well-formed shape. */
  lemma BootWf(pt: Frame, used: seq<bool>)
    requires 0 < pt && pt + 5 < MAX_PAGES == |used| && used[0] && forall f | pt <= f < pt + 6 :: used[f]
    ensures Wf(Vm(BootTables(pt), used), BootShape(pt))
  {
    var vm, sh := Vm(BootTables(pt), used), BootShape(pt);
    hide Present, Huge, FrameOf, Entry, SlotOk, RootOk, TableOk, BootTables, BootShape;
    BootRoot(pt);
    forall p | p in sh.at ensures TableOk(vm, sh, p) && sh.at[p] == BootFrame(pt, p.path) {
      BootTable(pt, used, p);
    }
    forall p, q | p in sh.at && q in sh.at && sh.at[p] == sh.at[q] ensures p == q {
      BootTable(pt, used, p);
      BootTable(pt, used, q);
    }
    forall p, i: nat | p in sh.at && |p.path| < 3 && i < 512 ensures SlotOk(vm, sh, p, i) {
      BootSlot(pt, used, p, i);
    }
  }

  /** Which of the six pages holds the table at a path. */
  ghost function BootFrame(pt: Frame, path: seq<nat>): Frame {
    if path == [] then pt else if path == [0] then pt + 1 else if |path| == 2 then pt + 2 + path[1] else 0
  }

  lemma BootRoot(pt: Frame)
    ensures var sh := BootShape(pt);
      sh.k == pt && sh.copied == map[] && RootOk(sh, pt)
  {
    forall i: nat | i < 4 ensures Pos(pt, [0, i]) in BootShape(pt).at {
      assert i == 0 || i == 1 || i == 2 || i == 3;
    }
  }

  lemma BootTable(pt: Frame, used: seq<bool>, p: Pos)
    requires 0 < pt && pt + 5 < MAX_PAGES == |used| && (forall f | pt <= f < pt + 6 :: used[f])
    requires p in BootShape(pt).at
    ensures TableOk(Vm(BootTables(pt), used), BootShape(pt), p)
    ensures BootShape(pt).at[p] == BootFrame(pt, p.path) && p.owner == pt
    ensures p.path == [] || p.path == [0] || (|p.path| == 2 && p.path == [0, p.path[1]] && p.path[1] < 4)
  {
    hide Present, Huge, FrameOf, Entry, SlotOk;
    assert |p.path| == 2 ==> p.path[..1] == [0];
  }

  lemma BootSlot(pt: Frame, used: seq<bool>, p: Pos, i: nat)
    requires pt + 5 < MAX_PAGES && p in BootShape(pt).at && i < 512
    ensures SlotOk(Vm(BootTables(pt), used), BootShape(pt), p, i)
  {
    hide Present, Huge, FrameOf, Entry, BootTables, PdEntry;
    BootEntries(pt, i);
    BootPlaces(pt, p, i);
    DirectoryEntryFields(pt + 1);
    if i < 4 { DirectoryEntryFields(pt + 2 + i); }
    if |p.path| == 2 { PdEntryFields(i + 512 * p.path[1]); }
  }

  lemma BootPlaces(pt: Frame, p: Pos, i: nat)
    requires p in BootShape(pt).at
    ensures var sh := BootShape(pt);
      && (p == Pos(pt, []) || p == Pos(pt, [0]) || (|p.path| == 2 && p.path[1] < 4 && sh.at[p] == pt + 2 + p.path[1]))
      && sh.at[Pos(pt, [])] == pt && sh.at[Pos(pt, [0])] == pt + 1
      && (sh.Child(p, i) in sh.at <==> (p.path == [] && i == 0) || (p.path == [0] && i < 4))
      && (sh.Child(p, i) in sh.at ==> sh.at[sh.Child(p, i)] == if p.path == [] then pt + 1 else pt + 2 + i)
  {
    var sh := BootShape(pt);
    assert sh.Child(p, i) == Pos(pt, p.path + [i]);
    if p.path == [] {
      assert [] + [i] == [i] && (i != 0 ==> [i][0] != 0);
    } else if p.path == [0] {
      assert [0] + [i] == [0, i];
      if i < 4 { assert i == 0 || i == 1 || i == 2 || i == 3; } else { assert [0, i][1] == i; }
    } else {
      assert |(p.path + [i])| == 3;
    }
  }

  /** Every address below 4 GB translates to itself, and nothing else is mapped. */
  lemma BootIdentity(pt: Frame, va: nat)
    requires pt + 5 < MAX_PAGES && va < 0x1_0000_0000_0000
    ensures if va < 0x1_0000_0000 then Translate(BootTables(pt), pt, va) == va
            else Lookup(BootTables(pt), pt, va) == NotMapped
  {
    hide Present, Huge, FrameOf, Entry, BootTables, PdEntry, Pml4Idx, PdptIdx, PdIdx;
    IndexBounds(va);
    BootEntries(pt, Pml4Idx(va));
    BootEntries(pt, PdptIdx(va));
    BootEntries(pt, PdIdx(va));
    DirectoryEntryFields(pt + 1);
    LowIndices(va);
    if Pml4Idx(va) == 0 && PdptIdx(va) < 4 {
      DirectoryEntryFields(pt + 2 + PdptIdx(va));
      PdEntryFields(PdIdx(va) + 512 * PdptIdx(va));
    }
  }

  lemma LowIndices(va: nat)
    requires va < 0x1_0000_0000_0000
    ensures va < 0x1_0000_0000 <==> Pml4Idx(va) == 0 && PdptIdx(va) < 4
    ensures va < 0x1_0000_0000 ==> va == (PdIdx(va) + 512 * PdptIdx(va)) * 0x20_0000 + va % 0x20_0000
  {}

  // ---- What spaces share -------------------------------------------------------------

  /** At a place shared with the kernel, a user space sees what the kernel sees. */
  lemma SharedAgree(vm: Vm, sh: Shape, r: Frame, va: nat)
    requires Wf(vm, sh) && sh.Root(r) && sh.Shared(r, Dir(va))
    ensures Lookup(vm.mem, r, va) == Lookup(vm.mem, sh.k, va)
  {
    hide Present, Huge, FrameOf, Entry, Pml4Idx, PdptIdx, PdIdx, PtIdx, TableOk, Wf;
    IndexBounds(va);
    RootPlace(vm, sh, r);
    RootPlace(vm, sh, sh.k);
    WfRoot(vm, sh, r);
    WfRoot(vm, sh, sh.k);
    var a, b := Pml4Idx(va), PdptIdx(va);
    assert [] + [a] == [a] && [0] + [b] == [0, b];
    assert Dir(va)[0] == a && Dir(va)[1] == b;
    WfSlot(vm, sh, Pos(r, []), a);
    WfSlot(vm, sh, Pos(sh.k, []), a);
    if a == 0 {
      WfSlot(vm, sh, Pos(r, [0]), b);
      WfSlot(vm, sh, Pos(sh.k, [0]), b);
    }
  }

  /** All address spaces translate every address below 4 GB alike. */
  lemma LowAgree(vm: Vm, sh: Shape, r: Frame, va: nat)
    requires Wf(vm, sh) && sh.Root(r) && va < 0x1_0000_0000
    ensures Lookup(vm.mem, r, va) == Lookup(vm.mem, sh.k, va)
    ensures Translate(vm.mem, r, va) == Translate(vm.mem, sh.k, va)
  {
    LowIndices(va);
    SharedAgree(vm, sh, r, va);
  }

  /** Translations depend on the tables alone: memories that agree on every placed table give the same
      views. */
  lemma SameTables(vm: Vm, vn: Vm, sh: Shape, s: Frame, va: nat)
    requires Wf(vm, sh) && sh.Root(s)
    requires forall q | q in sh.at :: forall j: nat :: Entry(vn.mem, sh.at[q], j) == Entry(vm.mem, sh.at[q], j)
    ensures Lookup(vn.mem, s, va) == Lookup(vm.mem, s, va)
  {
    hide Present, Huge, FrameOf, Pml4Idx, PdptIdx, PdIdx, PtIdx, Entry, TableOk, RootOk;
    DirPlaces(vm, sh, s, va);
    var a, b, c := Pml4Idx(va), PdptIdx(va), PdIdx(va);
    WfSlot(vm, sh, Pos(s, []), a);
    if sh.Reach(s, [a]) in sh.at {
      WfSlot(vm, sh, sh.Reach(s, [a]), b);
      if sh.Reach(s, [a, b]) in sh.at { WfSlot(vm, sh, sh.Reach(s, [a, b]), c); }
    }
  }

  // ---- CreateUserPml4 ---------------------------------------------------------------

  /** `e | PTE_USER` */
  function WithUser(e: nat): nat { if e / 4 % 2 == 1 then e else e + 4 }

  lemma WithUserFields(e: nat)
    ensures Present(WithUser(e)) == Present(e) && Huge(WithUser(e)) == Huge(e) && FrameOf(WithUser(e)) == FrameOf(e)
  {
    if e / 4 % 2 == 0 {
      BitTwoClear(e);
      Eighths(e);
      Eighths(e + 4);
    }
  }

  lemma Eighths(e: nat)
    ensures e / 128 == e / 8 / 16 && e / 4096 == e / 8 / 512
  {}

  lemma BitTwoClear(e: nat)
    requires e / 4 % 2 == 0
    ensures (e + 4) / 8 == e / 8 && (e + 4) % 2 == e % 2
  {}

  /** The new root before its slot 0 is set: the kernel's present upper slots, opened to user mode. */
  function UpperCopy(m: map<Frame, seq<nat>>, k: Frame): (t: seq<nat>)
    ensures |t| == 512
    ensures forall i | 0 <= i < 512 :: t[i] == if i >= 1 && Present(Entry(m, k, i)) then WithUser(Entry(m, k, i)) else 0
  {
    seq(512, i requires 0 <= i < 512 => if i >= 1 && Present(Entry(m, k, i)) then WithUser(Entry(m, k, i)) else 0)
  }

  /** The new first-level directory: the kernel's four low entries. */
  function LowCopy(m: map<Frame, seq<nat>>, k: Frame): (t: seq<nat>)
    ensures |t| == 512
    ensures forall i | 0 <= i < 512 ::
      t[i] == if Present(Entry(m, k, 0)) && i < 4 then Entry(m, FrameOf(Entry(m, k, 0)), i) else 0
  {
    seq(512, i requires 0 <= i < 512 =>
      if Present(Entry(m, k, 0)) && i < 4 then Entry(m, FrameOf(Entry(m, k, 0)), i) else 0)
  }

  ghost function CreateUserPml4(vm: Vm, k: Frame): (Vm, Option<Frame>) {
    var (u1, a1) := Alloc(vm.used);
    if a1 == 0 then (Vm(vm.mem, u1), None) else
    var m1 := vm.mem[a1 / 4096 := UpperCopy(vm.mem, k)];
    var (u2, a2) := Alloc(u1);
    if a2 == 0 then (Vm(m1, Free(u2, a1)), None) else
    var m2 := m1[a2 / 4096 := LowCopy(vm.mem, k)];
    (Vm(SetEntry(m2, a1 / 4096, 0, TableEntry(a2 / 4096)), u2), Some(a1 / 4096))
  }

  ghost function CopiedSlots(m: map<Frame, seq<nat>>, k: Frame): set<nat> {
    set i: nat | 1 <= i < 512 && Present(Entry(m, k, i))
  }

  ghost function WithSpace(vm: Vm, sh: Shape, r: Frame, d: Frame): Shape {
    Shape(sh.k, sh.copied[r := CopiedSlots(vm.mem, sh.k)], sh.at[Pos(r, []) := r][Pos(r, [0]) := d])
  }

  /** `vn` is `vm` with a root at frame `r` and its low directory at frame `d`. */
  ghost predicate SpaceAdded(vm: Vm, vn: Vm, sh: Shape, r: Frame, d: Frame) {
    && Wf(vm, sh) && 0 < r < MAX_PAGES && 0 < d < MAX_PAGES && r != d && !vm.used[r] && !vm.used[d]
    && vn.used == vm.used[r := true][d := true]
    && vn.mem == SetEntry(vm.mem[r := UpperCopy(vm.mem, sh.k)][d := LowCopy(vm.mem, sh.k)], r, 0, TableEntry(d))
  }

  lemma CreateCases(vm: Vm, sh: Shape)
    requires Wf(vm, sh)
    ensures var (vn, o) := CreateUserPml4(vm, sh.k);
      && (o.Some? <==> 2 <= |FreeSet(vm.used)|)
      && (o.Some? ==> exists d :: SpaceAdded(vm, vn, sh, o.value, d))
      && (o.None? ==>
          vn.used == vm.used && forall f | f in vm.mem && f < |vm.used| && vm.used[f] ::
            f in vn.mem && vn.mem[f] == vm.mem[f])
  {
    hide Present, FrameOf, SlotOk, TableOk, RootOk;
    AllocFailsIffExhausted(vm.used);
    var f := FirstFree(vm.used);
    if f < |vm.used| {
      FreeSetUpdate(vm.used, f);
      assert f in FreeSet(vm.used);
      var u1 := vm.used[f := true];
      AllocFailsIffExhausted(u1);
      var d := FirstFree(u1);
      assert u1[f := false] == vm.used;
      if d < |u1| {
        assert d in FreeSet(u1);
        assert SpaceAdded(vm, CreateUserPml4(vm, sh.k).0, sh, f, d);
      }
    }
  }

  lemma NewFramesUnplaced(vm: Vm, vn: Vm, sh: Shape, r: Frame, d: Frame, q: Pos)
    requires SpaceAdded(vm, vn, sh, r, d) && q in sh.at
    ensures sh.at[q] != r && sh.at[q] != d && q.owner != r
    ensures sh.at[q] in vm.mem && sh.at[q] in vn.mem && vn.mem[sh.at[q]] == vm.mem[sh.at[q]]
  {
    hide Present, FrameOf, SlotOk, CopiedSlots, Entry;
    assert TableOk(vm, sh, q);
    assert RootOk(sh, q.owner);
    assert TableOk(vm, sh, Pos(q.owner, []));
  }

  lemma SpaceTable(vm: Vm, vn: Vm, sh: Shape, r: Frame, d: Frame, q: Pos)
    requires SpaceAdded(vm, vn, sh, r, d) && q in WithSpace(vm, sh, r, d).at
    ensures TableOk(vn, WithSpace(vm, sh, r, d), q)
    ensures q in sh.at ==> q.owner != r
    ensures q !in sh.at ==> q == Pos(r, []) || q == Pos(r, [0])
    ensures WithSpace(vm, sh, r, d).at[q] == if q == Pos(r, []) then r else if q == Pos(r, [0]) then d else sh.at[q]
    ensures q in sh.at ==> sh.at[q] != r && sh.at[q] != d
  {
    hide Present, FrameOf, SlotOk, CopiedSlots, Entry, RootOk;
    if q in sh.at {
      assert TableOk(vm, sh, q);
      NewFramesUnplaced(vm, vn, sh, r, d, q);
    } else {
      assert [0][..0] == [];
    }
  }

  lemma SpaceOldSlot(vm: Vm, vn: Vm, sh: Shape, r: Frame, d: Frame, q: Pos, j: nat)
    requires SpaceAdded(vm, vn, sh, r, d) && q in sh.at && |q.path| < 3 && j < 512
    ensures SlotOk(vn, WithSpace(vm, sh, r, d), q, j)
  {
    hide Present, Huge, FrameOf, CopiedSlots, Wf, SpaceAdded, RootOk, TableOk;
    OldPlaceKept(vm, vn, sh, r, d, q);
    WfSlot(vm, sh, q, j);
    assert WithSpace(vm, sh, r, d).Child(q, j) == sh.Child(q, j);
    assert sh.Child(q, j).owner != r;
  }

  lemma OldPlaceKept(vm: Vm, vn: Vm, sh: Shape, r: Frame, d: Frame, q: Pos)
    requires SpaceAdded(vm, vn, sh, r, d) && q in sh.at
    ensures Wf(vm, sh) && sh.Root(q.owner) && sh.k != r && q.owner != r
    ensures WithSpace(vm, sh, r, d).at[q] == sh.at[q]
    ensures forall j: nat :: Entry(vn.mem, sh.at[q], j) == Entry(vm.mem, sh.at[q], j)
  {
    NewFramesUnplaced(vm, vn, sh, r, d, q);
    hide Present, Huge, FrameOf, CopiedSlots, SlotOk;
    assert TableOk(vm, sh, q) && RootOk(sh, sh.k);
    NewFramesUnplaced(vm, vn, sh, r, d, Pos(sh.k, []));
  }

  lemma SpaceRootSlot(vm: Vm, vn: Vm, sh: Shape, r: Frame, d: Frame, j: nat)
    requires SpaceAdded(vm, vn, sh, r, d) && j < 512
    ensures SlotOk(vn, WithSpace(vm, sh, r, d), Pos(r, []), j)
  {
    hide Present, Huge, FrameOf, Wf, TableEntry, WithUser, RootOk, TableOk;
    TableEntryFields(d);
    WithUserFields(Entry(vm.mem, sh.k, j));
    ZeroAbsent();
    RootPlace(vm, sh, sh.k);
    OldPlaceKept(vm, vn, sh, r, d, Pos(sh.k, []));
    WfSlot(vm, sh, Pos(sh.k, []), j);
    if Pos(r, [j]) in sh.at { NewFramesUnplaced(vm, vn, sh, r, d, Pos(r, [j])); }
    var sn := WithSpace(vm, sh, r, d);
    assert [] + [j] == [j];
    assert j != 0 ==> [j][0] != 0;
    assert Entry(vn.mem, r, j) == if j == 0 then TableEntry(d) else UpperCopy(vm.mem, sh.k)[j];
    assert sn.Child(Pos(r, []), j) == Pos(if j in sn.copied[r] then sh.k else r, [j]);
  }

  lemma ZeroAbsent()
    ensures !Present(0)
  {}

  lemma SpaceLowSlot(vm: Vm, vn: Vm, sh: Shape, r: Frame, d: Frame, j: nat)
    requires SpaceAdded(vm, vn, sh, r, d) && j < 512
    ensures SlotOk(vn, WithSpace(vm, sh, r, d), Pos(r, [0]), j)
  {
    hide Present, Huge, FrameOf, Wf, TableEntry, WithUser, CopiedSlots, TableOk;
    ZeroAbsent();
    RootPlace(vm, sh, sh.k);
    OldPlaceKept(vm, vn, sh, r, d, Pos(sh.k, []));
    WfSlot(vm, sh, Pos(sh.k, []), 0);
    WfRoot(vm, sh, sh.k);
    WfSlot(vm, sh, Pos(sh.k, [0]), j);
    if Pos(r, [0, j]) in sh.at { NewFramesUnplaced(vm, vn, sh, r, d, Pos(r, [0, j])); }
    var sn := WithSpace(vm, sh, r, d);
    assert [] + [0] == [0] && [0] + [j] == [0, j];
    assert Entry(vn.mem, d, j) == LowCopy(vm.mem, sh.k)[j];
    assert sh.Child(Pos(sh.k, []), 0) == Pos(sh.k, [0]);
    assert sh.Child(Pos(sh.k, [0]), j) == Pos(sh.k, [0, j]);
    assert sn.Child(Pos(r, [0]), j) == Pos(if j < 4 then sh.k else r, [0, j]);
  }

  lemma SpaceRoots(vm: Vm, vn: Vm, sh: Shape, r: Frame, d: Frame, s: Frame)
    requires SpaceAdded(vm, vn, sh, r, d) && WithSpace(vm, sh, r, d).Root(s)
    ensures RootOk(WithSpace(vm, sh, r, d), s)
  {
    hide Huge, FrameOf, TableOk;
    assert RootOk(sh, sh.k);
    if s == r {
      RootPlace(vm, sh, sh.k);
      forall i | i in CopiedSlots(vm.mem, sh.k) ensures Pos(sh.k, [i]) in sh.at {
        WfSlot(vm, sh, Pos(sh.k, []), i);
        assert [] + [i] == [i];
      }
    } else {
      assert RootOk(sh, s);
    }
  }

  lemma SpaceAddedWf(vm: Vm, vn: Vm, sh: Shape, r: Frame, d: Frame)
    requires SpaceAdded(vm, vn, sh, r, d)
    ensures Wf(vn, WithSpace(vm, sh, r, d))
    ensures !sh.Root(r)
  {
    var sn := WithSpace(vm, sh, r, d);
    assert |vn.used| == MAX_PAGES && vn.used[0] && sn.k == sh.k && sn.copied.Keys == sh.copied.Keys + {r};
    RootPlace(vm, sh, sh.k);
    NewFramesUnplaced(vm, vn, sh, r, d, Pos(sh.k, []));
    if sh.Root(r) {
      RootPlace(vm, sh, r);
      NewFramesUnplaced(vm, vn, sh, r, d, Pos(r, []));
    }
    assert forall p, q | p in sh.at && q in sh.at && sh.at[p] == sh.at[q] :: p == q;
    hide Present, Huge, FrameOf, SlotOk, TableOk, RootOk, WithSpace, SpaceAdded, Wf;
    forall q | q in sn.at ensures TableOk(vn, sn, q) { SpaceTable(vm, vn, sh, r, d, q); }
    forall p, q | p in sn.at && q in sn.at && sn.at[p] == sn.at[q] ensures p == q {
      SpaceTable(vm, vn, sh, r, d, p);
      SpaceTable(vm, vn, sh, r, d, q);
    }
    forall s | sn.Root(s) ensures RootOk(sn, s) { SpaceRoots(vm, vn, sh, r, d, s); }
    forall q, j: nat | q in sn.at && |q.path| < 3 && j < 512 ensures SlotOk(vn, sn, q, j) {
      SpaceTable(vm, vn, sh, r, d, q);
      if q == Pos(r, []) { SpaceRootSlot(vm, vn, sh, r, d, j); }
      else if q == Pos(r, [0]) { SpaceLowSlot(vm, vn, sh, r, d, j); }
      else { SpaceOldSlot(vm, vn, sh, r, d, q, j); }
    }
    WfIntro(vn, sn);
  }

  lemma WfIntro(vm: Vm, sh: Shape)
    requires |vm.used| == MAX_PAGES && vm.used[0] && sh.k !in sh.copied
    requires forall r | sh.Root(r) :: RootOk(sh, r)
    requires forall p | p in sh.at :: TableOk(vm, sh, p)
    requires forall p, q | p in sh.at && q in sh.at && sh.at[p] == sh.at[q] :: p == q
    requires forall p, i: nat | p in sh.at && |p.path| < 3 && i < 512 :: SlotOk(vm, sh, p, i)
    ensures Wf(vm, sh)
  {}

  lemma NewSpaceView(vm: Vm, vn: Vm, sh: Shape, r: Frame, d: Frame, va: nat)
    requires SpaceAdded(vm, vn, sh, r, d)
    ensures Lookup(vn.mem, r, va) ==
      if Pml4Idx(va) == 0 && PdptIdx(va) >= 4 then NotMapped else Lookup(vm.mem, sh.k, va)
  {
    SpaceAddedWf(vm, vn, sh, r, d);
    OldSpaceView(vm, vn, sh, r, d, sh.k, va);
    IndexBounds(va);
    var sn := WithSpace(vm, sh, r, d);
    assert Dir(va)[0] == Pml4Idx(va) && Dir(va)[1] == PdptIdx(va);
    if sn.Shared(r, Dir(va)) {
      hide Wf, Lookup, SpaceAdded;
      SharedAgree(vn, sn, r, va);
    } else {
      TableEntryFields(d);
      assert !Present(0);
      hide Present, Huge, FrameOf, Pml4Idx, PdptIdx, PdIdx, PtIdx, TableEntry;
      assert Entry(vn.mem, r, Pml4Idx(va))
        == if Pml4Idx(va) == 0 then TableEntry(d) else UpperCopy(vm.mem, sh.k)[Pml4Idx(va)];
      assert Entry(vn.mem, d, PdptIdx(va)) == LowCopy(vm.mem, sh.k)[PdptIdx(va)];
    }
  }

  lemma OldSpaceView(vm: Vm, vn: Vm, sh: Shape, r: Frame, d: Frame, s: Frame, va: nat)
    requires SpaceAdded(vm, vn, sh, r, d) && sh.Root(s)
    ensures Lookup(vn.mem, s, va) == Lookup(vm.mem, s, va)
  {
    hide Wf, Lookup, Entry, SpaceAdded;
    forall q | q in sh.at ensures forall j: nat :: Entry(vn.mem, sh.at[q], j) == Entry(vm.mem, sh.at[q], j) {
      OldPlaceKept(vm, vn, sh, r, d, q);
    }
    OldPlaceKept(vm, vn, sh, r, d, Pos(sh.k, [])) by {
      SpaceAddedRoots(vm, vn, sh, r, d);
    }
    SameTables(vm, vn, sh, s, va);
  }

  lemma SpaceAddedRoots(vm: Vm, vn: Vm, sh: Shape, r: Frame, d: Frame)
    requires SpaceAdded(vm, vn, sh, r, d)
    ensures Pos(sh.k, []) in sh.at
  {
    RootPlace(vm, sh, sh.k);
  }

  // ---- Who may pass the tables ----------------------------------------------------------------

  /** Slot `j` of the table at `q`, if it leads to a table that a user space has for itself, lets user
      mode and writes through. */
  ghost predicate PathOpen(m: map<Frame, seq<nat>>, sh: Shape, q: Pos, j: nat)
    requires q in sh.at
  {
    sh.Child(q, j) in sh.at && sh.Child(q, j).owner != sh.k ==> Entry(m, sh.at[q], j) % 8 == 7
  }

  ghost predicate PathsOpen(m: map<Frame, seq<nat>>, sh: Shape) {
    forall q, j: nat | q in sh.at && |q.path| < 3 && j < 512 :: PathOpen(m, sh, q, j)
  }

  lemma OpenLinksKeep(vm: Vm, sh: Shape, vn: Vm, sn: Shape)
    requires Wf(vm, sh) && Wf(vn, sn) && sn.k == sh.k && sn.copied == sh.copied
    requires OpenLinks(vm, sh, vn, sn) && PathsOpen(vm.mem, sh)
    ensures PathsOpen(vn.mem, sn)
  {
    hide Wf, Entry, Present, Huge, FrameOf, OpenLinks, PathsOpen;
    forall q, j: nat | q in sn.at && |q.path| < 3 && j < 512 ensures PathOpen(vn.mem, sn, q, j) {
      WfSlot(vn, sn, q, j);
      LinkIsOpen(vm, sh, vn, sn, q, j);
      if q in sh.at {
        WfSlot(vm, sh, q, j);
        PathIsOpen(vm.mem, sh, q, j);
      }
    }
    OpenIntro(vn.mem, sn);
  }

  lemma LinkIsOpen(vm: Vm, sh: Shape, vn: Vm, sn: Shape, q: Pos, j: nat)
    requires OpenLinks(vm, sh, vn, sn) && q in sn.at && |q.path| < 3 && j < 512
    ensures OpenLink(vm, sh, vn, sn, q, j)
  {}

  lemma PathIsOpen(m: map<Frame, seq<nat>>, sh: Shape, q: Pos, j: nat)
    requires PathsOpen(m, sh) && q in sh.at && |q.path| < 3 && j < 512
    ensures PathOpen(m, sh, q, j)
  {}

  /** Entries that lead to the kernel's tables may change. */
  lemma KernelWriteKeeps(vm: Vm, vn: Vm, sh: Shape, p: Pos, i: nat)
    requires PathsOpen(vm.mem, sh) && p in sh.at && sh.Child(p, i).owner == sh.k
    requires forall q, j: nat | q in sh.at && !(q == p && j == i) ::
      Entry(vn.mem, sh.at[q], j) == Entry(vm.mem, sh.at[q], j)
    ensures PathsOpen(vn.mem, sh)
  {
    hide Entry, PathsOpen;
    forall q, j: nat | q in sh.at && |q.path| < 3 && j < 512 ensures PathOpen(vn.mem, sh, q, j) {
      PathIsOpen(vm.mem, sh, q, j);
    }
    OpenIntro(vn.mem, sh);
  }

  lemma OpenIntro(m: map<Frame, seq<nat>>, sh: Shape)
    requires forall q, j: nat | q in sh.at && |q.path| < 3 && j < 512 :: PathOpen(m, sh, q, j)
    ensures PathsOpen(m, sh)
  {}

  /** A new space's only table of its own is reached through slot 0 of its root. */
  lemma SpaceOpen(vm: Vm, vn: Vm, sh: Shape, r: Frame, d: Frame)
    requires SpaceAdded(vm, vn, sh, r, d) && PathsOpen(vm.mem, sh)
    ensures PathsOpen(vn.mem, WithSpace(vm, sh, r, d))
  {
    SpaceAddedWf(vm, vn, sh, r, d);
    TableEntryIsOpen(d);
    hide Wf, Entry, SpaceAdded, PathsOpen, TableEntry, CopiedSlots;
    var sn := WithSpace(vm, sh, r, d);
    forall q, j: nat | q in sn.at && |q.path| < 3 && j < 512 ensures PathOpen(vn.mem, sn, q, j) {
      if q in sh.at {
        SpaceOldOpen(vm, vn, sh, r, d, q, j);
      } else {
        SpaceNewOpen(vm, vn, sh, r, d, q, j);
      }
    }
    OpenIntro(vn.mem, sn);
  }

  lemma SpaceOldOpen(vm: Vm, vn: Vm, sh: Shape, r: Frame, d: Frame, q: Pos, j: nat)
    requires SpaceAdded(vm, vn, sh, r, d) && PathsOpen(vm.mem, sh) && q in sh.at && |q.path| < 3 && j < 512
    ensures q in WithSpace(vm, sh, r, d).at && PathOpen(vn.mem, WithSpace(vm, sh, r, d), q, j)
  {
    PathIsOpen(vm.mem, sh, q, j);
    OldPlaceKept(vm, vn, sh, r, d, q);
    hide Wf, Entry, SpaceAdded, PathsOpen, CopiedSlots;
    var sn := WithSpace(vm, sh, r, d);
    assert sn.Child(q, j) == sh.Child(q, j) && sh.Child(q, j).owner != r;
  }

  lemma SpaceNewOpen(vm: Vm, vn: Vm, sh: Shape, r: Frame, d: Frame, q: Pos, j: nat)
    requires SpaceAdded(vm, vn, sh, r, d) && q in WithSpace(vm, sh, r, d).at && q !in sh.at && j < 512
    ensures PathOpen(vn.mem, WithSpace(vm, sh, r, d), q, j)
  {
    hide Wf, Entry, TableEntry, CopiedSlots, Present, Huge, FrameOf, SpaceAdded;
    SpaceAddedWf(vm, vn, sh, r, d);
    SpaceTable(vm, vn, sh, r, d, q);
    if q == Pos(r, []) { NewRootOpen(vm, vn, sh, r, d, j); } else { NewLowOpen(vm, vn, sh, r, d, j); }
  }

  lemma NewRootOpen(vm: Vm, vn: Vm, sh: Shape, r: Frame, d: Frame, j: nat)
    requires SpaceAdded(vm, vn, sh, r, d) && Wf(vn, WithSpace(vm, sh, r, d)) && j < 512
    requires Pos(r, []) in WithSpace(vm, sh, r, d).at && WithSpace(vm, sh, r, d).at[Pos(r, [])] == r
    ensures PathOpen(vn.mem, WithSpace(vm, sh, r, d), Pos(r, []), j)
  {
    hide Wf, Entry, TableEntry, CopiedSlots, Present, Huge, FrameOf, SpaceAdded;
    WfSlot(vn, WithSpace(vm, sh, r, d), Pos(r, []), j);
    NewRootEntry(vm, vn, sh, r, d, j);
    TableEntryIsOpen(d);
    assert [] + [j] == [j];
  }

  lemma NewLowOpen(vm: Vm, vn: Vm, sh: Shape, r: Frame, d: Frame, j: nat)
    requires SpaceAdded(vm, vn, sh, r, d) && Wf(vn, WithSpace(vm, sh, r, d)) && j < 512
    requires Pos(r, [0]) in WithSpace(vm, sh, r, d).at && WithSpace(vm, sh, r, d).at[Pos(r, [0])] == d
    ensures PathOpen(vn.mem, WithSpace(vm, sh, r, d), Pos(r, [0]), j)
  {
    hide Wf, Entry, TableEntry, CopiedSlots, Present, Huge, FrameOf, SpaceAdded;
    WfSlot(vn, WithSpace(vm, sh, r, d), Pos(r, [0]), j);
    NewLowEntry(vm, vn, sh, r, d, j);
    assert [0] + [j] == [0, j];
  }

  lemma NewRootEntry(vm: Vm, vn: Vm, sh: Shape, r: Frame, d: Frame, j: nat)
    requires SpaceAdded(vm, vn, sh, r, d) && j < 512
    ensures Entry(vn.mem, r, j) == if j == 0 then TableEntry(d) else UpperCopy(vm.mem, sh.k)[j]
    ensures j in CopiedSlots(vm.mem, sh.k) <==> j >= 1 && Present(Entry(vm.mem, sh.k, j))
    ensures j >= 1 && !Present(Entry(vm.mem, sh.k, j)) ==> !Present(Entry(vn.mem, r, j))
  {
    ZeroAbsent();
  }

  lemma NewLowEntry(vm: Vm, vn: Vm, sh: Shape, r: Frame, d: Frame, j: nat)
    requires SpaceAdded(vm, vn, sh, r, d) && j < 512
    ensures j >= 4 ==> !Present(Entry(vn.mem, d, j))
  {
    ZeroAbsent();
    assert Entry(vn.mem, d, j) == LowCopy(vm.mem, sh.k)[j];
  }

  // ---- MapSharedUserData --------------------------------------------------------------

  const KUSER_VA: nat := 0x7FFE_0000

  /** Entry `i` of the page table that replaces a 2 MB page: the same page, kernel only, except for
      the KUSER page itself, which is read-only and open to user mode. */
  function SplitEntry(huge: nat, phys: nat, i: nat): nat {
    if i == PtIdx(KUSER_VA) then LeafEntry(phys, 5) else huge / 0x20_0000 % 0x8000_0000 * 0x20_0000 + i * 4096 + 3
  }

  function SplitTable(huge: nat, phys: nat): (t: seq<nat>)
    ensures |t| == 512 && forall i | 0 <= i < 512 :: t[i] == SplitEntry(huge, phys, i)
  {
    seq(512, i requires 0 <= i < 512 => SplitEntry(huge, phys, i))
  }

  /** The first half of MapSharedUserData: open the two upper levels to user mode and find the page
      directory. */
  function OpenKuserPath(vm: Vm, k: Frame): (Vm, Option<Frame>) {
    var e1 := Entry(vm.mem, k, Pml4Idx(KUSER_VA));
    if !Present(e1) then (vm, None) else
    var v1 := vm.(mem := SetEntry(vm.mem, k, Pml4Idx(KUSER_VA), WithUser(e1)));
    var e2 := Entry(v1.mem, FrameOf(e1), PdptIdx(KUSER_VA));
    if !Present(e2) then (v1, None) else
    (v1.(mem := SetEntry(v1.mem, FrameOf(e1), PdptIdx(KUSER_VA), WithUser(e2))), Some(FrameOf(e2)))
  }

  ghost function MapSharedUserData(vm: Vm, k: Frame, phys: nat): (Vm, bool) {
    var (v2, pd) := OpenKuserPath(vm, k);
    if pd.None? then (v2, false) else
    var e3 := Entry(v2.mem, pd.value, PdIdx(KUSER_VA));
    if !Present(e3) || !Huge(e3) then
      MapPageInto(v2, k, KUSER_VA, phys, 5)
    else
      var (used, a) := Alloc(v2.used);
      if a == 0 then (v2.(used := used), false) else
      (Vm(SetEntry(v2.mem[a / 4096 := SplitTable(e3, phys)], pd.value, PdIdx(KUSER_VA), TableEntry(a / 4096)), used),
       true)
  }

  /** Rewriting a slot without changing where it leads changes nothing. */
  lemma FlagWrite(vm: Vm, sh: Shape, p: Pos, i: nat, e: nat)
    requires Wf(vm, sh) && p in sh.at && |p.path| < 3 && i < 512 && sh.Child(p, i) in sh.at
    requires var o := Entry(vm.mem, sh.at[p], i);
      Present(e) == Present(o) && Huge(e) == Huge(o) && FrameOf(e) == FrameOf(o)
    ensures var vn := vm.(mem := SetEntry(vm.mem, sh.at[p], i, e));
      && Wf(vn, sh) && SameViews(vm, vn, sh)
      && (sh.Child(p, i).owner == sh.k && PathsOpen(vm.mem, sh) ==> PathsOpen(vn.mem, sh))
  {
    hide Present, Huge, FrameOf, Lookup, Wf, RootOk, TableOk, SlotOk, Entry, SetEntry, PathsOpen;
    var vn := vm.(mem := SetEntry(vm.mem, sh.at[p], i, e));
    forall q, j: nat | q in sh.at
      ensures Entry(vn.mem, sh.at[q], j) == if q == p && j == i then e else Entry(vm.mem, sh.at[q], j)
    {
      FlagWriteEntry(vm, sh, p, i, e, q, j);
    }
    FlagWriteWf(vm, vn, sh, p, i, e);
    forall s, va: nat | sh.Root(s) ensures Lookup(vn.mem, s, va) == Lookup(vm.mem, s, va) {
      FlagWriteView(vm, vn, sh, p, i, e, s, va);
    }
    if sh.Child(p, i).owner == sh.k && PathsOpen(vm.mem, sh) { KernelWriteKeeps(vm, vn, sh, p, i); }
  }

  lemma FlagWriteEntry(vm: Vm, sh: Shape, p: Pos, i: nat, e: nat, q: Pos, j: nat)
    requires Wf(vm, sh) && p in sh.at && i < 512 && q in sh.at
    ensures Entry(SetEntry(vm.mem, sh.at[p], i, e), sh.at[q], j) ==
      if q == p && j == i then e else Entry(vm.mem, sh.at[q], j)
    ensures TableOk(vm.(mem := SetEntry(vm.mem, sh.at[p], i, e)), sh, q)
  {
    hide Present, Huge, FrameOf, RootOk, SlotOk;
    assert TableOk(vm, sh, p) && TableOk(vm, sh, q);
  }

  lemma FlagWriteWf(vm: Vm, vn: Vm, sh: Shape, p: Pos, i: nat, e: nat)
    requires Wf(vm, sh) && p in sh.at && |p.path| < 3 && i < 512 && sh.Child(p, i) in sh.at
    requires var o := Entry(vm.mem, sh.at[p], i);
      Present(e) == Present(o) && Huge(e) == Huge(o) && FrameOf(e) == FrameOf(o)
    requires vn == vm.(mem := SetEntry(vm.mem, sh.at[p], i, e))
    requires forall q, j: nat | q in sh.at ::
      Entry(vn.mem, sh.at[q], j) == if q == p && j == i then e else Entry(vm.mem, sh.at[q], j)
    ensures Wf(vn, sh)
  {
    hide Present, Huge, FrameOf, RootOk, TableOk, Entry, SetEntry, Shape.Child;
    forall q | q in sh.at ensures TableOk(vn, sh, q) { FlagWriteEntry(vm, sh, p, i, e, q, 0); }
    forall q, j: nat | q in sh.at && |q.path| < 3 && j < 512 ensures SlotOk(vn, sh, q, j) { WfSlot(vm, sh, q, j); }
  }

  lemma FlagWriteView(vm: Vm, vn: Vm, sh: Shape, p: Pos, i: nat, e: nat, s: Frame, va: nat)
    requires Wf(vm, sh) && sh.Root(s) && p in sh.at && |p.path| < 3 && i < 512 && sh.Child(p, i) in sh.at
    requires var o := Entry(vm.mem, sh.at[p], i);
      Present(e) == Present(o) && Huge(e) == Huge(o) && FrameOf(e) == FrameOf(o)
    requires forall q, j: nat | q in sh.at ::
      Entry(vn.mem, sh.at[q], j) == if q == p && j == i then e else Entry(vm.mem, sh.at[q], j)
    ensures Lookup(vn.mem, s, va) == Lookup(vm.mem, s, va)
  {
    hide Present, Huge, FrameOf, Pml4Idx, PdptIdx, PdIdx, PtIdx, Entry, TableOk, RootOk, Wf, Shape.Child, Shape.Reach;
    DirPlaces(vm, sh, s, va);
    var a, b, c := Pml4Idx(va), PdptIdx(va), PdIdx(va);
    WfSlot(vm, sh, p, i);
    WfSlot(vm, sh, Pos(s, []), a);
    if sh.Reach(s, [a]) in sh.at {
      WfSlot(vm, sh, sh.Reach(s, [a]), b);
      if sh.Reach(s, [a, b]) in sh.at {
        WfSlot(vm, sh, sh.Reach(s, [a, b]), c);
        ReachPath(sh, s, Dir(va));
      }
    }
  }

  lemma ReachPath(sh: Shape, s: Frame, path: seq<nat>)
    ensures sh.Reach(s, path).path == path
  {}

  lemma KuserIndices()
    ensures Pml4Idx(KUSER_VA) == 0 && PdptIdx(KUSER_VA) == 1 && PdIdx(KUSER_VA) == 511 && PtIdx(KUSER_VA) == 480
  {}

  /** The path to the KUSER page's directory is shared by all spaces and made of tables. */
  lemma KuserPath(vm: Vm, sh: Shape)
    requires Wf(vm, sh)
    ensures var k := sh.k;
      && Pos(k, []) in sh.at && sh.at[Pos(k, [])] == k
      && sh.Child(Pos(k, []), 0) == Pos(k, [0]) && Pos(k, [0]) in sh.at
      && sh.Child(Pos(k, [0]), 1) == Pos(k, [0, 1]) && Pos(k, [0, 1]) in sh.at
      && sh.Child(Pos(k, [0, 1]), 511) == Pos(k, [0, 1, 511])
    ensures SlotOk(vm, sh, Pos(sh.k, []), 0) && SlotOk(vm, sh, Pos(sh.k, [0]), 1)
    ensures SlotOk(vm, sh, Pos(sh.k, [0, 1]), 511)
    ensures forall s | sh.Root(s) :: sh.Owner(s, [0, 1, 511]) == sh.k
  {
    hide Present, Huge, FrameOf, TableOk, SlotOk, Entry;
    assert RootOk(sh, sh.k);
    assert [] + [0] == [0] && [0] + [1] == [0, 1] && [0, 1] + [511] == [0, 1, 511];
    WfSlot(vm, sh, Pos(sh.k, []), 0);
    WfSlot(vm, sh, Pos(sh.k, [0]), 1);
    WfSlot(vm, sh, Pos(sh.k, [0, 1]), 511);
  }

  lemma OpenKuserPathKeeps(vm: Vm, sh: Shape)
    requires Wf(vm, sh)
    ensures var (v2, pd) := OpenKuserPath(vm, sh.k);
      && Wf(v2, sh) && SameViews(vm, v2, sh) && v2.used == vm.used
      && Pos(sh.k, [0, 1]) in sh.at && pd == Some(sh.at[Pos(sh.k, [0, 1])])
      && (PathsOpen(vm.mem, sh) ==> PathsOpen(v2.mem, sh))
  {
    KuserIndices();
    KuserPath(vm, sh);
    hide Huge, WithUser, Lookup, Wf, Entry, Present, FrameOf, SetEntry, Pml4Idx, PdptIdx, PathsOpen;
    var k := sh.k;
    var e1 := Entry(vm.mem, k, 0);
    WithUserFields(e1);
    FlagWrite(vm, sh, Pos(k, []), 0, WithUser(e1));
    var v1 := vm.(mem := SetEntry(vm.mem, k, 0, WithUser(e1)));
    KuserPath(v1, sh);
    var e2 := Entry(v1.mem, FrameOf(e1), 1);
    WithUserFields(e2);
    FlagWrite(v1, sh, Pos(k, [0]), 1, WithUser(e2));
  }

  lemma SplitCases(vm: Vm, sh: Shape, phys: nat)
    requires Wf(vm, sh)
    ensures var (v2, pd) := OpenKuserPath(vm, sh.k);
      pd.Some? ==>
        var e3 := Entry(v2.mem, pd.value, 511);
        Present(e3) && Huge(e3) ==> (MapSharedUserData(vm, sh.k, phys) ==
          if FreeSet(v2.used) == {} then (v2, false)
          else (Vm(SetEntry(v2.mem[FirstFree(v2.used) := SplitTable(e3, phys)], pd.value, 511,
                            TableEntry(FirstFree(v2.used))),
                   v2.used[FirstFree(v2.used) := true]), true))
    ensures FreeSet(vm.used) != {} ==> 0 < FirstFree(vm.used) < MAX_PAGES && !vm.used[FirstFree(vm.used)]
  {
    hide Present, Huge, FrameOf, Entry, OpenKuserPath, SplitTable, SetEntry, TableEntry, Wf;
    KuserIndices();
    OpenKuserPathKeeps(vm, sh);
    WfRoot(vm, sh, sh.k);
    AllocFailsIffExhausted(vm.used);
  }

  lemma SplitView(vm: Vm, vn: Vm, sh: Shape, f: Frame, t: seq<nat>, s: Frame, va: nat)
    requires Pos(sh.k, [0, 1]) in sh.at && Linked(vm, vn, sh, Pos(sh.k, [0, 1]), 511, f, t) && sh.Root(s)
    ensures Lookup(vn.mem, s, va) == if Dir(va) == [0, 1, 511] then LeafView(t[PtIdx(va)]) else Lookup(vm.mem, s, va)
  {
    var p := Pos(sh.k, [0, 1]);
    var sn := WithTable(sh, p, 511, f);
    KuserPath(vm, sh);
    IndexBounds(va);
    LinkedWf(vm, vn, sh, p, 511, f, t);
    EmptySlotIsPrivate(vm, sh, p, 511);
    LinkedEntry(vm, vn, sh, p, 511, f, t, p, PtIdx(va));
    hide Present, Huge, FrameOf, Pml4Idx, PdptIdx, PdIdx, PtIdx, Entry, TableOk, RootOk, Wf, Linked, SlotOk;
    if Dir(va) == [0, 1, 511] {
      WalkPlaces(vn, sn, s, va);
      LookupLeaf(vn.mem, s, va);
    } else {
      SplitOtherView(vm, vn, sh, f, t, s, va);
    }
  }

  lemma SplitOtherView(vm: Vm, vn: Vm, sh: Shape, f: Frame, t: seq<nat>, s: Frame, va: nat)
    requires Pos(sh.k, [0, 1]) in sh.at && Linked(vm, vn, sh, Pos(sh.k, [0, 1]), 511, f, t) && sh.Root(s)
    requires Dir(va) != [0, 1, 511]
    ensures Lookup(vn.mem, s, va) == Lookup(vm.mem, s, va)
  {
    hide Present, Huge, FrameOf, Pml4Idx, PdptIdx, PdIdx, PtIdx, Entry, TableOk, RootOk, Wf, Linked, Shape.Child,
      Shape.Reach;
    var p := Pos(sh.k, [0, 1]);
    LinkedShrinks(vm, vn, sh, p, 511, f, t);
    forall q, j: nat | q in sh.at && !(q == p && j == 511)
      ensures Entry(vn.mem, sh.at[q], j) == Entry(vm.mem, sh.at[q], j)
    {
      LinkedEntry(vm, vn, sh, p, 511, f, t, q, j);
    }
    DirPlaces(vm, sh, s, va);
    var a, b, c := Pml4Idx(va), PdptIdx(va), PdIdx(va);
    ReachPath(sh, s, [a]);
    ReachPath(sh, s, [a, b]);
    ReachPath(sh, s, Dir(va));
    WfSlot(vm, sh, Pos(s, []), a);
    if sh.Reach(s, [a]) in sh.at {
      WfSlot(vm, sh, sh.Reach(s, [a]), b);
      if sh.Reach(s, [a, b]) in sh.at {
        WfSlot(vm, sh, sh.Reach(s, [a, b]), c);
      }
    }
  }

  /** A split page translates as before, except for the KUSER page. */
  lemma SplitTranslates(huge: nat, phys: nat, va: nat)
    requires Dir(va) == Dir(KUSER_VA)
    ensures var e := SplitEntry(huge, phys, PtIdx(va));
      Present(e) && FrameOf(e) * 4096 + va % 4096 ==
        if SamePage(va, KUSER_VA) then FrameOf(phys) * 4096 + va % 4096
        else huge / 0x20_0000 % 0x8000_0000 * 0x20_0000 + va % 0x20_0000
  {
    IndexBounds(va);
    if PtIdx(va) == PtIdx(KUSER_VA) {
      LeafEntryFields(phys, 5);
    } else {
      SplitArithmetic(huge / 0x20_0000 % 0x8000_0000, va);
    }
  }

  lemma SplitArithmetic(base: nat, va: nat)
    requires base < 0x8000_0000
    ensures var e := base * 0x20_0000 + PtIdx(va) * 4096 + 3;
      Present(e) && FrameOf(e) == base * 512 + PtIdx(va)
    ensures va % 0x20_0000 == PtIdx(va) * 4096 + va % 4096
  {}

  /** MapSharedUserData on the boot map's 2 MB page: only the KUSER page's translation changes, in
      every address space, to the given frame; it fails exactly when memory is exhausted. */
  lemma MapSharedUserDataSplits(vm: Vm, sh: Shape, phys: nat) returns (sn: Shape)
    requires Wf(vm, sh) && Lookup(vm.mem, sh.k, KUSER_VA).Page2M?
    ensures var (vn, ok) := MapSharedUserData(vm, sh.k, phys);
      && Wf(vn, sn) && Grown(vm, vn, sh, sn)
      && (ok <==> FreeSet(vm.used) != {})
      && (!ok ==> SameViews(vm, vn, sh))
      && (ok ==> forall s, va: nat | sh.Root(s) :: (Translate(vn.mem, s, va) ==
            if SamePage(va, KUSER_VA) then FrameOf(phys) * 4096 + va % 4096 else Translate(vm.mem, s, va)))
      && (ok ==> forall s, va: nat | sh.Root(s) && Dir(va) != Dir(KUSER_VA) ::
          Lookup(vn.mem, s, va) == Lookup(vm.mem, s, va))
      && (PathsOpen(vm.mem, sh) ==> PathsOpen(vn.mem, sn))
  {
    OpenKuserPathKeeps(vm, sh);
    SplitCases(vm, sh, phys);
    var (v2, pd) := OpenKuserPath(vm, sh.k);
    HugeSlot(v2, sh);
    hide Present, Huge, FrameOf, Entry, TableOk, RootOk, Wf, SlotOk, OpenKuserPath, MapSharedUserData, SplitTable,
      Lookup, SetEntry, FreeSet, TableEntry, PathsOpen;
    sn := sh;
    if FreeSet(vm.used) != {} {
      var f := FirstFree(vm.used);
      var e3 := Entry(v2.mem, pd.value, 511);
      var vn := MapSharedUserData(vm, sh.k, phys).0;
      sn := WithTable(sh, Pos(sh.k, [0, 1]), 511, f);
      SplitDone(vm, v2, vn, sh, f, e3, phys);
    }
  }

  lemma HugeSlot(vm: Vm, sh: Shape)
    requires Wf(vm, sh) && Pos(sh.k, [0, 1]) in sh.at && Lookup(vm.mem, sh.k, KUSER_VA).Page2M?
    ensures var e3 := Entry(vm.mem, sh.at[Pos(sh.k, [0, 1])], 511);
      Present(e3) && Huge(e3) && Lookup(vm.mem, sh.k, KUSER_VA) == Page2M(e3)
    ensures forall s, va: nat | sh.Root(s) && Dir(va) == Dir(KUSER_VA) ::
      Lookup(vm.mem, s, va) == Page2M(Entry(vm.mem, sh.at[Pos(sh.k, [0, 1])], 511))
  {
    KuserIndices();
    KuserPath(vm, sh);
    hide Present, Huge, FrameOf, Entry, TableOk, RootOk, Wf;
    forall s, va: nat | sh.Root(s) && Dir(va) == Dir(KUSER_VA)
      ensures Lookup(vm.mem, s, va) == Page2M(Entry(vm.mem, sh.at[Pos(sh.k, [0, 1])], 511))
    {
      assert Dir(va)[0] == Pml4Idx(va) && Dir(va)[1] == PdptIdx(va) && Dir(va)[2] == PdIdx(va);
      assert sh.Shared(s, Dir(va));
      SharedAgree(vm, sh, s, va);
    }
  }

  lemma SplitDone(vm: Vm, v2: Vm, vn: Vm, sh: Shape, f: Frame, e3: nat, phys: nat)
    requires Wf(v2, sh) && SameViews(vm, v2, sh) && v2.used == vm.used && Pos(sh.k, [0, 1]) in sh.at
    requires Lookup(vm.mem, sh.k, KUSER_VA).Page2M? && e3 == Entry(v2.mem, sh.at[Pos(sh.k, [0, 1])], 511)
    requires 0 < f < MAX_PAGES && !v2.used[f]
    requires vn == Vm(SetEntry(v2.mem[f := SplitTable(e3, phys)], sh.at[Pos(sh.k, [0, 1])], 511, TableEntry(f)),
                      v2.used[f := true])
    ensures var sn := WithTable(sh, Pos(sh.k, [0, 1]), 511, f);
      && Wf(vn, sn) && Grown(vm, vn, sh, sn)
      && (forall s, va: nat | sh.Root(s) :: Translate(vn.mem, s, va) ==
            if SamePage(va, KUSER_VA) then FrameOf(phys) * 4096 + va % 4096 else Translate(vm.mem, s, va))
      && (forall s, va: nat | sh.Root(s) && Dir(va) != Dir(KUSER_VA) :: Lookup(vn.mem, s, va) == Lookup(vm.mem, s, va))
      && (PathsOpen(v2.mem, sh) ==> PathsOpen(vn.mem, sn))
  {
    hide Present, Huge, FrameOf, Entry, TableOk, RootOk, Wf, SlotOk, SplitTable, Lookup, SetEntry, TableEntry, Linked,
      FreeSet, Pml4Idx, PdptIdx, PdIdx, PtIdx, PathsOpen;
    var p, t := Pos(sh.k, [0, 1]), SplitTable(e3, phys);
    SplitLinked(v2, vn, sh, f, e3, phys);
    if PathsOpen(v2.mem, sh) { SplitOpen(v2, vn, sh, f, t); }
    LinkedWf(v2, vn, sh, p, 511, f, t);
    LinkedShrinks(v2, vn, sh, p, 511, f, t);
    EmptySlot511(v2, vn, sh, f, t);
    forall s, va: nat | sh.Root(s)
      ensures Translate(vn.mem, s, va) ==
        if SamePage(va, KUSER_VA) then FrameOf(phys) * 4096 + va % 4096 else Translate(vm.mem, s, va)
      ensures Dir(va) != Dir(KUSER_VA) ==> Lookup(vn.mem, s, va) == Lookup(vm.mem, s, va)
    {
      SplitPage(vm, v2, vn, sh, f, e3, phys, s, va);
    }
  }

  /** The new page table belongs to the kernel. */
  lemma SplitOpen(vm: Vm, vn: Vm, sh: Shape, f: Frame, t: seq<nat>)
    requires Pos(sh.k, [0, 1]) in sh.at && Linked(vm, vn, sh, Pos(sh.k, [0, 1]), 511, f, t) && PathsOpen(vm.mem, sh)
    ensures PathsOpen(vn.mem, WithTable(sh, Pos(sh.k, [0, 1]), 511, f))
  {
    var p := Pos(sh.k, [0, 1]);
    LinkedShrinks(vm, vn, sh, p, 511, f, t);
    KuserPath(vm, sh);
    EmptySlotIsPrivate(vm, sh, p, 511);
    hide Present, Huge, FrameOf, Entry, TableOk, RootOk, Wf, SlotOk, TableEntry, Linked, PathsOpen;
    var sn := WithTable(sh, p, 511, f);
    forall q, j: nat | q in sn.at && |q.path| < 3 && j < 512 ensures PathOpen(vn.mem, sn, q, j) {
      assert q in sh.at && sn.Child(q, j) == sh.Child(q, j);
      PathIsOpen(vm.mem, sh, q, j);
      LinkedEntry(vm, vn, sh, p, 511, f, t, q, j);
    }
    OpenIntro(vn.mem, sn);
  }

  lemma SplitLinked(v2: Vm, vn: Vm, sh: Shape, f: Frame, e3: nat, phys: nat)
    requires Wf(v2, sh) && Pos(sh.k, [0, 1]) in sh.at && Lookup(v2.mem, sh.k, KUSER_VA).Page2M?
    requires e3 == Entry(v2.mem, sh.at[Pos(sh.k, [0, 1])], 511) && 0 < f < MAX_PAGES && !v2.used[f]
    requires vn == Vm(SetEntry(v2.mem[f := SplitTable(e3, phys)], sh.at[Pos(sh.k, [0, 1])], 511, TableEntry(f)),
                      v2.used[f := true])
    ensures Linked(v2, vn, sh, Pos(sh.k, [0, 1]), 511, f, SplitTable(e3, phys))
  {
    hide Present, Huge, FrameOf, Entry, TableOk, RootOk, Wf, SlotOk, Lookup, SetEntry, TableEntry;
    HugeSlot(v2, sh);
  }

  lemma SplitPage(vm: Vm, v2: Vm, vn: Vm, sh: Shape, f: Frame, e3: nat, phys: nat, s: Frame, va: nat)
    requires Wf(v2, sh) && SameViews(vm, v2, sh) && Pos(sh.k, [0, 1]) in sh.at && sh.Root(s)
    requires Lookup(v2.mem, sh.k, KUSER_VA).Page2M? && e3 == Entry(v2.mem, sh.at[Pos(sh.k, [0, 1])], 511)
    requires Linked(v2, vn, sh, Pos(sh.k, [0, 1]), 511, f, SplitTable(e3, phys))
    ensures Translate(vn.mem, s, va) ==
      if SamePage(va, KUSER_VA) then FrameOf(phys) * 4096 + va % 4096 else Translate(vm.mem, s, va)
    ensures Dir(va) != Dir(KUSER_VA) ==> Lookup(vn.mem, s, va) == Lookup(vm.mem, s, va)
  {
    hide Present, Huge, FrameOf, Entry, TableOk, RootOk, Wf, SlotOk, SplitTable, Lookup, TableEntry, Linked, FreeSet,
      Pml4Idx, PdptIdx, PdIdx, PtIdx, SplitEntry;
    HugeSlot(v2, sh);
    KuserIndices();
    SplitView(v2, vn, sh, f, SplitTable(e3, phys), s, va);
    if Dir(va) == Dir(KUSER_VA) {
      SplitTranslates(e3, phys, va);
      IndexBounds(va);
    }
  }

  lemma EmptySlot511(vm: Vm, vn: Vm, sh: Shape, f: Frame, t: seq<nat>)
    requires Pos(sh.k, [0, 1]) in sh.at && Linked(vm, vn, sh, Pos(sh.k, [0, 1]), 511, f, t)
    ensures sh.Child(Pos(sh.k, [0, 1]), 511) !in sh.at
  {
    EmptySlotIsPrivate(vm, sh, Pos(sh.k, [0, 1]), 511);
  }

  /** The KUSER page, and no other, shows the new frame, or nothing changed. */
  ghost predicate KuserMapped(vm: Vm, sh: Shape, phys: nat, vn: Vm, sn: Shape, ok: bool) {
    && Wf(vn, sn) && Grown(vm, vn, sh, sn)
    && (if ok then LeafChanged(vm, vn, sh, sh.k, KUSER_VA, LeafEntry(phys, 5)) else SameViews(vm, vn, sh))
  }

  /** Called again, or on a 4 KB mapping, it is a plain MapPage of the KUSER page. */
  lemma MapSharedUserDataMaps(vm: Vm, sh: Shape, phys: nat) returns (sn: Shape)
    requires Wf(vm, sh) && !Lookup(vm.mem, sh.k, KUSER_VA).Page2M?
    ensures KuserMapped(vm, sh, phys, MapSharedUserData(vm, sh.k, phys).0, sn, MapSharedUserData(vm, sh.k, phys).1)
    ensures PathsOpen(vm.mem, sh) ==> PathsOpen(MapSharedUserData(vm, sh.k, phys).0.mem, sn)
  {
    hide Wf, LeafEntry, OpenKuserPath, MapPageInto, FreeSet, MapSharedUserData, Lookup, Missing, CoveredByHugePage,
      Dir, PtIdx, PathPlaces, AddedWithin, SamePage, Grown, SameViews, LeafChanged, PathsOpen, OpenLinks;
    OpenKuserPathKeeps(vm, sh);
    PlainCase(vm, sh, phys);
    var v2 := OpenKuserPath(vm, sh.k).0;
    sn := MapPageIntoExact(v2, sh, sh.k, KUSER_VA, phys, 5);
    var (vn, ok) := MapSharedUserData(vm, sh.k, phys);
    FromSameViews(vm, v2, vn, sh, sn, sh.k, KUSER_VA, LeafEntry(phys, 5), ok);
    if PathsOpen(vm.mem, sh) {
      SameShapeRoots(v2, vn, sh, sn);
      OpenLinksKeep(v2, sh, vn, sn);
    }
  }

  lemma SameShapeRoots(vm: Vm, vn: Vm, sh: Shape, sn: Shape)
    requires Grown(vm, vn, sh, sn)
    ensures sn.k == sh.k && sn.copied == sh.copied
  {}

  /** What holds from a memory with the same views and the same free pages holds from the first one. */
  lemma FromSameViews(vm: Vm, v2: Vm, vn: Vm, sh: Shape, sn: Shape, r: Frame, va: nat, pte: nat, ok: bool)
    requires SameViews(vm, v2, sh) && v2.used == vm.used && Grown(v2, vn, sh, sn)
    requires if ok then LeafChanged(v2, vn, sh, r, va, pte) else SameViews(v2, vn, sh)
    ensures Grown(vm, vn, sh, sn)
    ensures if ok then LeafChanged(vm, vn, sh, r, va, pte) else SameViews(vm, vn, sh)
  {
    hide Lookup, FreeSet, SamePage, Dir;
  }

  lemma PlainCase(vm: Vm, sh: Shape, phys: nat)
    requires Wf(vm, sh) && !Lookup(vm.mem, sh.k, KUSER_VA).Page2M?
    ensures MapSharedUserData(vm, sh.k, phys) == MapPageInto(OpenKuserPath(vm, sh.k).0, sh.k, KUSER_VA, phys, 5)
  {
    KuserIndices();
    OpenKuserPathKeeps(vm, sh);
    var v2 := OpenKuserPath(vm, sh.k).0;
    KuserPath(v2, sh);
    assert Lookup(v2.mem, sh.k, KUSER_VA) == Lookup(vm.mem, sh.k, KUSER_VA);
    hide Wf, OpenKuserPath, MapPageInto, FreeSet, Present, Huge, FrameOf, Entry;
  }

  // ---- Runs -----------------------------------------------------------------------------

  datatype VmOp =
    | MapOp(r: Frame, va: nat, phys: nat, flags: nat)
    | ProtectOp(r: Frame, va: nat, flags: nat)
    | UnmapOp(r: Frame, va: nat)
    | CreateOp
    | ShareOp(phys: nat)

  datatype Machine = Machine(vm: Vm, sh: Shape)

  /** Operations name an existing root and flags without address bits. */
  ghost predicate OpOk(sh: Shape, op: VmOp) {
    match op
    case MapOp(r, _, _, flags) => sh.Root(r) && FrameOf(flags) == 0
    case ProtectOp(r, _, flags) => sh.Root(r) && FrameOf(flags) == 0
    case UnmapOp(r, _) => sh.Root(r)
    case _ => true
  }

  ghost function Apply(vm: Vm, k: Frame, op: VmOp): Vm {
    match op
    case MapOp(r, va, phys, flags) => if FrameOf(flags) == 0 then MapPageInto(vm, r, va, phys, flags).0 else vm
    case ProtectOp(r, va, flags) => if FrameOf(flags) == 0 then ProtectPageInto(vm, r, va, flags).0 else vm
    case UnmapOp(r, va) => UnmapPageFrom(vm, r, va)
    case CreateOp => CreateUserPml4(vm, k).0
    case ShareOp(phys) => MapSharedUserData(vm, k, phys).0
  }

  /** The pages an operation may change: that of its address, in the spaces that share its place. */
  ghost predicate Touches(sh: Shape, op: VmOp, s: Frame, vb: nat) {
    match op
    case CreateOp => false
    case ShareOp(_) => Dir(vb) == Dir(KUSER_VA)
    case _ => SamePage(op.va, vb) && sh.Owner(s, Dir(op.va)) == sh.Owner(op.r, Dir(op.va))
  }

  ghost predicate StepOk(vm: Vm, sh: Shape, op: VmOp, sn: Shape) {
    var vn := Apply(vm, sh.k, op);
    && Wf(vn, sn) && sn.k == sh.k
    && (forall r | r in sh.copied :: r in sn.copied && sn.copied[r] == sh.copied[r])
    && (forall s, vb: nat | sh.Root(s) && !Touches(sh, op, s, vb) :: Lookup(vn.mem, s, vb) == Lookup(vm.mem, s, vb))
    && (PathsOpen(vm.mem, sh) ==> PathsOpen(vn.mem, sn))
  }

  lemma StepExists(vm: Vm, sh: Shape, op: VmOp) returns (sn: Shape)
    requires Wf(vm, sh) && OpOk(sh, op)
    ensures StepOk(vm, sh, op, sn)
  {
    hide Wf, Lookup, FrameOf, LeafEntry, MapPageInto, ProtectPageInto, UnmapPageFrom, CreateUserPml4,
      MapSharedUserData, Dir, PtIdx, Missing, FreeSet, SpaceAdded, WithSpace, PathsOpen, OpenLinks, GetPteInto;
    match op {
      case MapOp(r, va, phys, flags) =>
        sn := MapPageIntoExact(vm, sh, r, va, phys, flags);
        if PathsOpen(vm.mem, sh) { OpenLinksKeep(vm, sh, Apply(vm, sh.k, op), sn); }
      case ProtectOp(r, va, flags) =>
        sn := sh;
        ProtectPageIntoExact(vm, sh, r, va, flags);
        if PathsOpen(vm.mem, sh) { OpenLinksKeep(vm, sh, Apply(vm, sh.k, op), sn); }
      case UnmapOp(r, va) =>
        sn := sh;
        UnmapPageFromExact(vm, sh, r, va);
        if PathsOpen(vm.mem, sh) { OpenLinksKeep(vm, sh, Apply(vm, sh.k, op), sn); }
      case CreateOp => sn := CreateStep(vm, sh);
      case ShareOp(phys) => sn := ShareStep(vm, sh, phys);
    }
  }

  /** Tables that are new were free pages. */
  ghost predicate NewTables(vm: Vm, sh: Shape, sn: Shape) {
    forall q | q in sn.at :: (q in sh.at && sn.at[q] == sh.at[q]) || sn.at[q] in FreeSet(vm.used)
  }

  lemma SpaceTables(vm: Vm, vn: Vm, sh: Shape, r: Frame, d: Frame)
    requires SpaceAdded(vm, vn, sh, r, d)
    ensures NewTables(vm, sh, WithSpace(vm, sh, r, d))
    ensures WithSpace(vm, sh, r, d).at.Keys == sh.at.Keys + {Pos(r, []), Pos(r, [0])}
    ensures WithSpace(vm, sh, r, d).copied == sh.copied[r := CopiedSlots(vm.mem, sh.k)]
  {
    WfRoot(vm, sh, sh.k);
    hide SlotOk, TableOk, RootOk, CopiedSlots;
  }

  /** What everyone sees after a space was added. */
  lemma SpaceViews(vm: Vm, vn: Vm, sh: Shape, r: Frame, d: Frame)
    requires SpaceAdded(vm, vn, sh, r, d)
    ensures SameViews(vm, vn, sh)
    ensures forall va: nat :: (Lookup(vn.mem, r, va) ==
      if Pml4Idx(va) == 0 && PdptIdx(va) >= 4 then NotMapped else Lookup(vm.mem, sh.k, va))
  {
    hide Wf, Lookup, SpaceAdded, CopiedSlots, Pml4Idx, PdptIdx;
    forall s, vb: nat | sh.Root(s) ensures Lookup(vn.mem, s, vb) == Lookup(vm.mem, s, vb) {
      OldSpaceView(vm, vn, sh, r, d, s, vb);
    }
    forall va: nat ensures Lookup(vn.mem, r, va) ==
      if Pml4Idx(va) == 0 && PdptIdx(va) >= 4 then NotMapped else Lookup(vm.mem, sh.k, va)
    {
      NewSpaceView(vm, vn, sh, r, d, va);
    }
  }

  lemma SpaceIsNew(vm: Vm, vn: Vm, sh: Shape, r: Frame, d: Frame)
    requires SpaceAdded(vm, vn, sh, r, d)
    ensures !sh.Root(r) && WithSpace(vm, sh, r, d).k == sh.k
  {
    hide SlotOk, CopiedSlots;
    if sh.Root(r) {
      assert RootOk(sh, r);
      WfTable(vm, sh, Pos(r, []));
    }
  }

  lemma CreateStep(vm: Vm, sh: Shape) returns (sn: Shape)
    requires Wf(vm, sh)
    ensures StepOk(vm, sh, CreateOp, sn)
    ensures var (vn, o) := CreateUserPml4(vm, sh.k);
      if o.None? then sn == sh
      else
        && !sh.Root(o.value) && sn.copied == sh.copied[o.value := CopiedSlots(vm.mem, sh.k)]
        && NewTables(vm, sh, sn) && sn.at.Keys == sh.at.Keys + {Pos(o.value, []), Pos(o.value, [0])}
        && forall va: nat :: Lookup(vn.mem, o.value, va) ==
             if Pml4Idx(va) == 0 && PdptIdx(va) >= 4 then NotMapped else Lookup(vm.mem, sh.k, va)
  {
    hide Wf, Lookup, CreateUserPml4, SpaceAdded, CopiedSlots, NewTables, WithSpace, Pml4Idx, PdptIdx, PathsOpen;
    CreateCases(vm, sh);
    var (vn, o) := CreateUserPml4(vm, sh.k);
    sn := sh;
    if o.Some? {
      var d :| SpaceAdded(vm, vn, sh, o.value, d);
      sn := WithSpace(vm, sh, o.value, d);
      SpaceTables(vm, vn, sh, o.value, d);
      SpaceIsNew(vm, vn, sh, o.value, d);
      SpaceAddedWf(vm, vn, sh, o.value, d);
      SpaceViews(vm, vn, sh, o.value, d);
      if PathsOpen(vm.mem, sh) { SpaceOpen(vm, vn, sh, o.value, d); }
    } else {
      CreateFailed(vm, vn, sh);
    }
  }

  /** A failed CreateUserPml4 gives its first page back; what it wrote there is free memory. */
  lemma CreateFailed(vm: Vm, vn: Vm, sh: Shape)
    requires Wf(vm, sh) && vn.used == vm.used
    requires forall f | f in vm.mem && f < |vm.used| && vm.used[f] :: f in vn.mem && vn.mem[f] == vm.mem[f]
    ensures Wf(vn, sh) && SameViews(vm, vn, sh) && (PathsOpen(vm.mem, sh) ==> PathsOpen(vn.mem, sh))
  {
    hide Present, Huge, FrameOf, Lookup;
    forall q | q in sh.at
      ensures TableOk(vn, sh, q) && forall j: nat :: Entry(vn.mem, sh.at[q], j) == Entry(vm.mem, sh.at[q], j)
    {
      assert TableOk(vm, sh, q);
    }
    forall q, j: nat | q in sh.at && |q.path| < 3 && j < 512 ensures SlotOk(vn, sh, q, j) { WfSlot(vm, sh, q, j); }
    forall s, vb: nat | sh.Root(s) ensures Lookup(vn.mem, s, vb) == Lookup(vm.mem, s, vb) {
      SameTables(vm, vn, sh, s, vb);
    }
    if PathsOpen(vm.mem, sh) { SameEntriesOpen(vm, vn, sh); }
  }

  lemma SameEntriesOpen(vm: Vm, vn: Vm, sh: Shape)
    requires PathsOpen(vm.mem, sh)
    requires forall q | q in sh.at :: forall j: nat :: Entry(vn.mem, sh.at[q], j) == Entry(vm.mem, sh.at[q], j)
    ensures PathsOpen(vn.mem, sh)
  {
    hide Entry, PathsOpen;
    forall q, j: nat | q in sh.at && |q.path| < 3 && j < 512 ensures PathOpen(vn.mem, sh, q, j) {
      PathIsOpen(vm.mem, sh, q, j);
    }
    OpenIntro(vn.mem, sh);
  }

  lemma ShareStep(vm: Vm, sh: Shape, phys: nat) returns (sn: Shape)
    requires Wf(vm, sh)
    ensures StepOk(vm, sh, ShareOp(phys), sn)
  {
    hide Wf, Lookup, FrameOf, LeafEntry, MapSharedUserData, Dir, PtIdx, FreeSet, PathsOpen;
    if Lookup(vm.mem, sh.k, KUSER_VA).Page2M? {
      sn := MapSharedUserDataSplits(vm, sh, phys);
    } else {
      sn := MapSharedUserDataMaps(vm, sh, phys);
    }
  }

  ghost function NextShape(vm: Vm, sh: Shape, op: VmOp): (sn: Shape)
    requires Wf(vm, sh) && OpOk(sh, op)
    ensures StepOk(vm, sh, op, sn)
  {
    assert exists sn :: StepOk(vm, sh, op, sn) by { var sn := StepExists(vm, sh, op); }
    var sn :| StepOk(vm, sh, op, sn);
    sn
  }

  /** An operation that names no root is not performed. */
  ghost function Step(m: Machine, op: VmOp): Machine {
    if Wf(m.vm, m.sh) && OpOk(m.sh, op) then Machine(Apply(m.vm, m.sh.k, op), NextShape(m.vm, m.sh, op)) else m
  }

  ghost function Run(m: Machine, ops: seq<VmOp>): Machine {
    if ops == [] then m else Step(Run(m, ops[..|ops| - 1]), ops[|ops| - 1])
  }

  lemma {:induction false} RunWf(m: Machine, ops: seq<VmOp>, r: Frame)
    requires Wf(m.vm, m.sh) && m.sh.Root(r)
    ensures var n := Run(m, ops);
      && Wf(n.vm, n.sh) && n.sh.k == m.sh.k && n.sh.Root(r)
      && (r in m.sh.copied ==> n.sh.copied[r] == m.sh.copied[r])
  {
    hide Wf, Apply, Lookup, FrameOf;
    if ops != [] {
      RunWf(m, ops[..|ops| - 1], r);
      WfRoots(m);
    }
  }

  lemma WfRoots(m: Machine)
    requires Wf(m.vm, m.sh)
    ensures m.sh.k !in m.sh.copied
  {}

  /** Over any run that never touches its place, a page keeps its view. */
  lemma {:induction false} RunKeepsView(m: Machine, ops: seq<VmOp>, s: Frame, vb: nat)
    requires Wf(m.vm, m.sh) && m.sh.Root(s)
    requires forall i | 0 <= i < |ops| :: !Touches(Run(m, ops[..i]).sh, ops[i], s, vb)
    ensures Lookup(Run(m, ops).vm.mem, s, vb) == Lookup(m.vm.mem, s, vb)
  {
    hide Wf, Apply, Lookup, FrameOf, Touches;
    if ops != [] {
      var pre := ops[..|ops| - 1];
      forall i | 0 <= i < |pre| ensures !Touches(Run(m, pre[..i]).sh, pre[i], s, vb) {
        assert pre[..i] == ops[..i];
      }
      RunKeepsView(m, pre, s, vb);
      RunWf(m, pre, s);
    }
  }

  /** The operation works on a private address of a user space other than `b`. */
  ghost predicate PrivateElsewhere(sh: Shape, op: VmOp, b: Frame) {
    match op
    case CreateOp => true
    case ShareOp(_) => false
    case _ => op.r != b && !sh.Shared(op.r, Dir(op.va))
  }

  /** Isolation: whatever other user spaces do at their private addresses, and however many spaces
      are created meanwhile, no page of space `b`, kernel or user, changes. */
  lemma RunIsolates(m: Machine, ops: seq<VmOp>, b: Frame, vb: nat)
    requires Wf(m.vm, m.sh) && m.sh.Root(b)
    requires forall i | 0 <= i < |ops| :: PrivateElsewhere(Run(m, ops[..i]).sh, ops[i], b)
    ensures Lookup(Run(m, ops).vm.mem, b, vb) == Lookup(m.vm.mem, b, vb)
  {
    hide Wf, Lookup, Run, FrameOf;
    forall i | 0 <= i < |ops| ensures !Touches(Run(m, ops[..i]).sh, ops[i], b, vb) {
      RunWf(m, ops[..i], b);
      assert PrivateElsewhere(Run(m, ops[..i]).sh, ops[i], b);
    }
    RunKeepsView(m, ops, b, vb);
  }

  /** What is private, in terms of the address: PML4 slot 0 from PDPT index 4 up, and the PML4 slots
      that were empty in the kernel's root when the space was created. */
  lemma PrivateAddresses(vm: Vm, sh: Shape, r: Frame, va: nat)
    requires Wf(vm, sh) && r in sh.copied
    ensures !sh.Shared(r, Dir(va)) <==>
      (Pml4Idx(va) == 0 && PdptIdx(va) >= 4) || (Pml4Idx(va) >= 1 && Pml4Idx(va) !in sh.copied[r])
  {
    hide Pml4Idx, PdptIdx, PdIdx;
    assert Dir(va)[0] == Pml4Idx(va) && Dir(va)[1] == PdptIdx(va);
    WfRoots(Machine(vm, sh));
  }

  /** After any run whatever, every space translates every address below 4 GB as the kernel does. */
  lemma RunLowAgree(m: Machine, ops: seq<VmOp>, r: Frame, va: nat)
    requires Wf(m.vm, m.sh) && Run(m, ops).sh.Root(r) && va < 0x1_0000_0000
    ensures var n := Run(m, ops).vm.mem;
      Lookup(n, r, va) == Lookup(n, m.sh.k, va) && Translate(n, r, va) == Translate(n, m.sh.k, va)
  {
    hide Wf, Lookup, Run;
    RunWf(m, ops, m.sh.k);
    LowAgree(Run(m, ops).vm, Run(m, ops).sh, r, va);
  }

  /** Once MapSharedUserData has succeeded, the KUSER page stays mapped to its frame in every space,
      those created later included, as long as no operation targets that page. */
  lemma KuserVisibleEverywhere(m: Machine, phys: nat, ops: seq<VmOp>, r: Frame)
    requires Wf(m.vm, m.sh) && Lookup(m.vm.mem, m.sh.k, KUSER_VA).Page2M? && FreeSet(m.vm.used) != {}
    requires var n := Step(m, ShareOp(phys));
      && (forall i | 0 <= i < |ops| :: !Touches(Run(n, ops[..i]).sh, ops[i], m.sh.k, KUSER_VA))
      && Run(n, ops).sh.Root(r)
    ensures Translate(Run(Step(m, ShareOp(phys)), ops).vm.mem, r, KUSER_VA) == FrameOf(phys) * 4096
  {
    hide Wf, Lookup, Run, FrameOf, MapSharedUserData, Pml4Idx, PdptIdx, PdIdx, PtIdx, Touches;
    var n := Step(m, ShareOp(phys));
    var _ := MapSharedUserDataSplits(m.vm, m.sh, phys);
    assert Translate(n.vm.mem, m.sh.k, KUSER_VA) == FrameOf(phys) * 4096 + KUSER_VA % 4096;
    RunKeepsView(n, ops, m.sh.k, KUSER_VA);
    RunLowAgree(n, ops, r, KUSER_VA);
  }
}
