/** User memory: the allocation, section and thread-stack cases of the system call dispatcher and its
    copy loop (kernel/syscall/syscall.cpp), on top of the page tables. */
module UserMemorySpec {
  import opened PmmSpec
  import opened PageTables
  import opened Wrappers
  import AddressSpaces
  import opened MappingCosts

  const TWO64: nat := 0x1_0000_0000_0000_0000
  const HEAP_BASE: nat := 0x5_0000_0000
  const HEAP_MAX: nat := 0x5_8000_0000

  // ---- Carving a range off the per-process cursor, in 64-bit arithmetic --------------

  function PagesFor(size: nat): nat { (size + 4095) % TWO64 / 4096 }

  /** The guard of the source: the cursor after the range, wrapped, is not past the window. */
  predicate GuardPasses(cursor: nat, pages: nat) { (cursor + pages * 4096 % TWO64) % TWO64 <= HEAP_MAX }

  function Advance(cursor: nat, pages: nat): nat { (cursor + pages * 4096 % TWO64) % TWO64 }

  predicate CursorOk(cursor: nat) { cursor % 4096 == 0 && HEAP_BASE <= cursor <= HEAP_MAX }

  /** What a passed guard should mean: the range covers the request and stays in the window. */
  predicate RangeSound(cursor: nat, size: nat) {
    size <= PagesFor(size) * 4096 && cursor + PagesFor(size) * 4096 <= HEAP_MAX
  }

  /** The guard is right about every size except those so large that the sum wraps: from
      2^64 - cursor - 4095 up it passes although no such range exists. */
  lemma GuardExact(cursor: nat, size: nat)
    requires CursorOk(cursor) && 0 < size < TWO64
    ensures GuardPasses(cursor, PagesFor(size)) <==> size <= HEAP_MAX - cursor || size > TWO64 - cursor - 4096
    ensures GuardPasses(cursor, PagesFor(size)) ==> (RangeSound(cursor, size) <==> size <= TWO64 - cursor - 4096)
  {
    var q := cursor / 4096;
    assert cursor == q * 4096;
    if size + 4095 < TWO64 {
      var p := PagesFor(size);
      assert p == (size + 4095) / 4096 && p * 4096 < TWO64;
      assert size <= p * 4096 < size + 4096;
    } else {
      assert PagesFor(size) == 0;
    }
  }

  /** Below those sizes a range is the fewest pages that hold the request, and the cursor moves behind it. */
  lemma RangeIs(cursor: nat, size: nat)
    requires CursorOk(cursor) && 0 < size <= TWO64 - cursor - 4096
    ensures PagesFor(size) * 4096 < size + 4096 && size <= PagesFor(size) * 4096
    ensures GuardPasses(cursor, PagesFor(size)) ==> Advance(cursor, PagesFor(size)) == cursor + PagesFor(size) * 4096
  {}

  /** The smallest such size on a fresh process: it passes the guard and moves the cursor to 0. */
  lemma GuardFailsOnWrap()
    ensures var size := TWO64 - HEAP_BASE;
      GuardPasses(HEAP_BASE, PagesFor(size)) && !RangeSound(HEAP_BASE, size) && Advance(HEAP_BASE, PagesFor(size)) == 0
  {}

  // ---- Copying from user memory -------------------------------------------------------

  /** Inside one 4 KB page a mapping of any size is contiguous. */
  lemma TranslateWithinPage(m: map<Frame, seq<nat>>, root: Frame, va: nat, k: nat)
    requires va % 4096 + k < 4096
    ensures Lookup(m, root, va + k) == Lookup(m, root, va)
    ensures Lookup(m, root, va) != NotMapped ==> Translate(m, root, va + k) == Translate(m, root, va) + k
  {
    SameDigitsWithin(va, k);
    OffsetsWithin(va, k);
    hide Present, Huge, FrameOf, Pml4Idx, PdptIdx, PdIdx, PtIdx;
  }

  lemma SameDigitsWithin(va: nat, k: nat)
    requires va % 4096 + k < 4096
    ensures Pml4Idx(va + k) == Pml4Idx(va) && PdptIdx(va + k) == PdptIdx(va)
    ensures PdIdx(va + k) == PdIdx(va) && PtIdx(va + k) == PtIdx(va)
  {
    var n := va / 4096;
    assert (va + k) / 4096 == n;
    Above(va);
    Above(va + k);
  }

  lemma Above(va: nat)
    ensures va / 0x20_0000 == va / 4096 / 512
    ensures va / 0x4000_0000 == va / 4096 / 0x4_0000
    ensures va / 0x80_0000_0000 == va / 4096 / 0x800_0000
  {}

  lemma OffsetsWithin(va: nat, k: nat)
    requires va % 4096 + k < 4096
    ensures (va + k) % 4096 == va % 4096 + k
    ensures (va + k) % 0x20_0000 == va % 0x20_0000 + k
    ensures (va + k) % 0x4000_0000 == va % 0x4000_0000 + k
  {
    var n := va / 4096;
    assert va == n * 4096 + va % 4096;
    assert va % 0x20_0000 == n % 512 * 4096 + va % 4096;
    assert va % 0x4000_0000 == n % 0x4_0000 * 4096 + va % 4096;
    assert (va + k) / 4096 == n;
    assert (va + k) % 0x20_0000 == n % 512 * 4096 + (va + k) % 4096;
    assert (va + k) % 0x4000_0000 == n % 0x4_0000 * 4096 + (va + k) % 4096;
  }

  /** Only the low 48 bits of an address are looked at, so 64-bit wrap-around is harmless. */
  lemma TranslateWraps(m: map<Frame, seq<nat>>, root: Frame, va: nat)
    ensures Translate(m, root, va % TWO64) == Translate(m, root, va)
  {
    WrapDigits(va);
    hide Present, Huge, FrameOf, Pml4Idx, PdptIdx, PdIdx, PtIdx;
  }

  lemma WrapDigits(va: nat)
    ensures var v := va % TWO64;
      && Pml4Idx(v) == Pml4Idx(va) && PdptIdx(v) == PdptIdx(va) && PdIdx(v) == PdIdx(va) && PtIdx(v) == PtIdx(va)
      && v % 4096 == va % 4096 && v % 0x20_0000 == va % 0x20_0000 && v % 0x4000_0000 == va % 0x4000_0000
  {
    var h := va / TWO64;
    var v := va % TWO64;
    assert va == h * TWO64 + v;
    Wrap4K(h, v);
    Wrap2M(h, v);
    Wrap1G(h, v);
    Wrap512G(h, v);
  }

  lemma Wrap4K(h: nat, v: nat)
    ensures (h * TWO64 + v) / 0x1000 % 512 == v / 0x1000 % 512
    ensures (h * TWO64 + v) % 0x1000 == v % 0x1000
  {
    assert (h * TWO64 + v) / 0x1000 == h * 0x10_0000_0000_0000 + v / 0x1000;
    assert (h * 0x800_0000_0000 * 512 + v / 0x1000) % 512 == v / 0x1000 % 512;
  }

  lemma Wrap2M(h: nat, v: nat)
    ensures (h * TWO64 + v) / 0x20_0000 % 512 == v / 0x20_0000 % 512
    ensures (h * TWO64 + v) % 0x20_0000 == v % 0x20_0000
  {
    assert (h * TWO64 + v) / 0x20_0000 == h * 0x800_0000_0000 + v / 0x20_0000;
    assert (h * 0x4_0000_0000 * 512 + v / 0x20_0000) % 512 == v / 0x20_0000 % 512;
  }

  lemma Wrap1G(h: nat, v: nat)
    ensures (h * TWO64 + v) / 0x4000_0000 % 512 == v / 0x4000_0000 % 512
    ensures (h * TWO64 + v) % 0x4000_0000 == v % 0x4000_0000
  {
    assert (h * TWO64 + v) / 0x4000_0000 == h * 0x4_0000_0000 + v / 0x4000_0000;
    assert (h * 0x200_0000 * 512 + v / 0x4000_0000) % 512 == v / 0x4000_0000 % 512;
  }

  lemma Wrap512G(h: nat, v: nat)
    ensures (h * TWO64 + v) / 0x80_0000_0000 % 512 == v / 0x80_0000_0000 % 512
  {
    assert (h * TWO64 + v) / 0x80_0000_0000 == h * 0x200_0000 + v / 0x80_0000_0000;
    assert (h * 0x1_0000 * 512 + v / 0x80_0000_0000) % 512 == v / 0x80_0000_0000 % 512;
  }

  /** ReadUserByte: an unmapped byte reads as 0. */
  function ReadUserByte(m: map<Frame, seq<nat>>, ram: nat -> nat, root: Frame, va: nat): nat {
    var phys := Translate(m, root, va);
    if phys != 0 then ram(phys) else 0
  }

  /** It is the byte of the frame in the entry, at the offset in the page; frame 0 counts as unmapped. */
  lemma ReadUserByteMeans(m: map<Frame, seq<nat>>, ram: nat -> nat, root: Frame, va: nat, f: nat, low: nat)
    ensures Lookup(m, root, va) == NotMapped ==> ReadUserByte(m, ram, root, va) == 0
    ensures 0 < f < 0x100_0000_0000 && low < 4096 && Lookup(m, root, va) == Page4K(f * 4096 + low) ==>
      ReadUserByte(m, ram, root, va) == ram(f * 4096 + va % 4096)
  {
    PageTranslates(m, root, va, f, low);
    hide Lookup;
  }

  /** The bytes read so far are the translatable ones from `va` on, byte by byte. */
  ghost predicate Copied(m: map<Frame, seq<nat>>, ram: nat -> nat, root: Frame, va: nat, buf: seq<nat>) {
    forall k: nat | k < |buf| :: CopiedByte(m, ram, root, (va + k) % TWO64, buf[k])
  }

  ghost predicate CopiedByte(m: map<Frame, seq<nat>>, ram: nat -> nat, root: Frame, at: nat, b: nat) {
    Translate(m, root, at) != 0 && b == ReadUserByte(m, ram, root, at)
  }

  /** ReadUserBytes agrees with ReadUserByte on every byte it returns and stops, short of `len`, only
      at the first byte that does not translate. */
  method ReadUserBytes(m: map<Frame, seq<nat>>, ram: nat -> nat, root: Frame, va: nat, len: nat) returns (buf: seq<nat>)
    requires va < TWO64
    ensures |buf| <= len && Copied(m, ram, root, va, buf)
    ensures |buf| < len ==> Translate(m, root, (va + |buf|) % TWO64) == 0
  {
    hide Translate, Lookup, CopiedByte;
    buf := [];
    while |buf| < len
      invariant |buf| <= len && Copied(m, ram, root, va, buf)
    {
      var at := (va + |buf|) % TWO64;
      var phys := Translate(m, root, at);
      if phys == 0 { break; }
      var avail := 4096 - at % 4096;
      var n := if len - |buf| < avail then len - |buf| else avail;
      var i := 0;
      ghost var start := |buf|;
      while i < n
        invariant 0 <= i <= n && |buf| == start + i
        invariant Copied(m, ram, root, va, buf)
      {
        CopiedNext(m, ram, root, va, start, i);
        buf := buf + [ram(phys + i)];
        i := i + 1;
      }
    }
  }

  lemma CopiedNext(m: map<Frame, seq<nat>>, ram: nat -> nat, root: Frame, va: nat, start: nat, i: nat)
    requires var at := (va + start) % TWO64; at % 4096 + i < 4096 && Translate(m, root, at) != 0
    ensures CopiedByte(m, ram, root, (va + (start + i)) % TWO64, ram(Translate(m, root, (va + start) % TWO64) + i))
  {
    hide Translate;
    ChunkByte(m, root, va, start, i);
  }

  lemma ChunkByte(m: map<Frame, seq<nat>>, root: Frame, va: nat, start: nat, i: nat)
    requires var at := (va + start) % TWO64; at % 4096 + i < 4096 && Translate(m, root, at) != 0
    ensures Translate(m, root, (va + (start + i)) % TWO64) == Translate(m, root, (va + start) % TWO64) + i
  {
    hide Lookup, Translate;
    var at := (va + start) % TWO64;
    MappedWithinPage(m, root, at, i);
    ModAdd(va + start, i);
    TranslateWraps(m, root, at + i);
  }

  lemma MappedWithinPage(m: map<Frame, seq<nat>>, root: Frame, va: nat, k: nat)
    requires va % 4096 + k < 4096 && Translate(m, root, va) != 0
    ensures Translate(m, root, va + k) == Translate(m, root, va) + k
  {
    hide Lookup;
    TranslateWithinPage(m, root, va, k);
  }

  lemma ModAdd(x: nat, i: nat)
    ensures (x % TWO64 + i) % TWO64 == (x + i) % TWO64
  {}

  // ---- Frames behind the user window ----------------------------------------------------

  predicate WindowPage(p: nat) { HEAP_BASE / 4096 <= p < HEAP_MAX / 4096 }

  /** The frame behind page number `p` of space `r`, if a 4 KB mapping puts one there. */
  function FrameAt(m: map<Frame, seq<nat>>, r: Frame, p: nat): Option<Frame> {
    var v := Lookup(m, r, p * 4096);
    if v.Page4K? then Some(FrameOf(v.pte)) else None
  }

  /** An anonymous page: a page number of a space that NtAllocateVirtualMemory or NtCreateThread
      filled with a page of its own. */
  type Anon = (Frame, nat)

  /** A private page of space `r`, where `c` lists the PML4 slots that spaces took over from the
      kernel: slot 0 from PDPT index 4 on, and every slot that was empty when the space was created. */
  ghost predicate UserPage(c: map<Frame, set<nat>>, r: Frame, p: nat) {
    var a := Pml4Idx(p * 4096);
    r in c && p < 0x10_0000_0000 && if a == 0 then PdptIdx(p * 4096) >= 4 else a !in c[r]
  }

  lemma UserRoot(c: map<Frame, set<nat>>, r: Frame, p: nat)
    requires UserPage(c, r, p)
    ensures r in c
  {}

  /** These are exactly the pages the shape does not share with the kernel. */
  lemma UserPageIsPrivate(vm: Vm, sh: Shape, r: Frame, p: nat)
    requires Wf(vm, sh) && r in sh.copied && p < 0x10_0000_0000
    ensures UserPage(sh.copied, r, p) <==> !sh.Shared(r, Dir(p * 4096))
  {
    hide Wf, Pml4Idx, PdptIdx, PdIdx;
    AddressSpaces.PrivateAddresses(vm, sh, r, p * 4096);
  }

  lemma WindowIsUser(c: map<Frame, set<nat>>, r: Frame, p: nat)
    requires r in c && WindowPage(p)
    ensures UserPage(c, r, p)
  {
    assert 0x1_0000_0000 <= p * 4096 < 0x80_0000_0000;
  }

  /** No 2 MB or 1 GB page covers a page. */
  predicate SmallPage(m: map<Frame, seq<nat>>, r: Frame, p: nat) {
    Lookup(m, r, p * 4096).NotMapped? || Lookup(m, r, p * 4096).Page4K?
  }

  /** A frame that holds data: allocated, and no page table. */
  ghost predicate DataFrame(vm: Vm, sh: Shape, f: Frame) {
    f < |vm.used| && vm.used[f] && forall q | q in sh.at :: sh.at[q] != f
  }

  ghost predicate UserPageOk(vm: Vm, sh: Shape, r: Frame, p: nat) {
    SmallPage(vm.mem, r, p) && (FrameAt(vm.mem, r, p).Some? ==> DataFrame(vm, sh, FrameAt(vm.mem, r, p).value))
  }

  /** The page is a user page with a frame that belongs to no section. */
  ghost predicate AnonOk(vm: Vm, sh: Shape, secs: set<Frame>, a: Anon) {
    UserPage(sh.copied, a.0, a.1) && FrameAt(vm.mem, a.0, a.1).Some? && FrameAt(vm.mem, a.0, a.1).value !in secs
  }

  ghost predicate SameFrame(m: map<Frame, seq<nat>>, r: Frame, p: nat, a: Anon) {
    FrameAt(m, r, p) == FrameAt(m, a.0, a.1)
  }

  /** Every frame behind a user page is allocated and no page table, and the frame of an anonymous
      page backs no other user page of any space and belongs to no section. */
  ghost predicate FramesOk(vm: Vm, sh: Shape, secs: set<Frame>, anon: set<Anon>) {
    && (forall f | f in secs :: DataFrame(vm, sh, f))
    && (forall r, p: nat | UserPage(sh.copied, r, p) :: UserPageOk(vm, sh, r, p))
    && (forall a | a in anon :: AnonOk(vm, sh, secs, a))
    && (forall a, r, p: nat | a in anon && UserPage(sh.copied, r, p) && SameFrame(vm.mem, r, p, a) :: a == (r, p))
  }

  lemma PageNumber(p: nat)
    requires p < 0x10_0000_0000
    ensures p * 4096 / 4096 % 0x10_0000_0000 == p && p * 4096 / 4096 == p
  {}

  lemma PageStart(va: nat)
    ensures Dir(va) == Dir(va / 4096 * 4096)
  {
    SameDigitsWithin(va / 4096 * 4096, va % 4096);
    hide Pml4Idx, PdptIdx, PdIdx;
  }

  /** User pages are private: no two spaces share one, and no two pages look alike. */
  lemma UserPrivate(vm: Vm, sh: Shape, r: Frame, s: Frame, va: nat, q: nat)
    requires Wf(vm, sh) && UserPage(sh.copied, r, va / 4096) && UserPage(sh.copied, s, q)
    ensures SamePage(va, q * 4096) && sh.Owner(s, Dir(va)) == sh.Owner(r, Dir(va)) <==> va / 4096 == q && r == s
  {
    UserPageIsPrivate(vm, sh, r, va / 4096);
    UserPageIsPrivate(vm, sh, s, q);
    hide Wf, Pml4Idx, PdptIdx, PdIdx, PtIdx, UserPage, Shape.Shared;
    PageStart(va);
    PageNumber(va / 4096);
    PageNumber(q);
    SamePageIff(va, q * 4096);
  }

  /** What MapPageInto promised about one page of one space. */
  ghost predicate PageMapped(vm: Vm, vn: Vm, sh: Shape, sn: Shape, r: Frame, va: nat, phys: nat, flags: nat, ok: bool)
    requires FrameOf(flags) == 0
  {
    && Grown(vm, vn, sh, sn) && |vn.used| == |vm.used|
    && if ok then LeafChanged(vm, vn, sn, r, va, LeafEntry(phys, flags)) else SameViews(vm, vn, sn)
  }

  lemma UserPageAfter(vm: Vm, vn: Vm, sh: Shape, sn: Shape, r: Frame, va: nat, f: Frame, flags: nat, ok: bool,
                      s: Frame, q: nat)
    requires Wf(vm, sh) && FrameOf(flags) == 0 && f < MAX_PAGES
    requires UserPage(sh.copied, r, va / 4096) && UserPage(sh.copied, s, q)
    requires PageMapped(vm, vn, sh, sn, r, va, f * 4096, flags, ok)
    ensures FrameAt(vn.mem, s, q) == if ok && s == r && q == va / 4096 then Some(f) else FrameAt(vm.mem, s, q)
    ensures SmallPage(vm.mem, s, q) ==> SmallPage(vn.mem, s, q)
  {
    assert r in sh.copied && s in sh.copied;
    hide Wf, Lookup, LeafEntry, FrameOf, Present, Dir, PtIdx, FreeSet, UserPage;
    LeafEntryFields(f * 4096, flags);
    FrameOfPage(f);
    UserPrivate(vm, sh, r, s, va, q);
  }

  /** Data frames stay data frames while tables come from free pages. */
  lemma DataStays(vm: Vm, vn: Vm, sh: Shape, sn: Shape, f: Frame)
    requires DataFrame(vm, sh, f) && Grown(vm, vn, sh, sn) && |vn.used| == |vm.used|
    ensures DataFrame(vn, sn, f)
  {
    assert f !in FreeSet(vm.used);
    UsedKept(vm, vn);
    hide FreeSet;
  }

  lemma NoFrameInFlags()
    ensures FrameOf(7) == 0
  {}

  lemma FrameOfPage(f: Frame)
    requires f < MAX_PAGES
    ensures FrameOf(f * 4096) == f
  {
    Fields(f, 0);
  }

  lemma UsedGrows(vm: Vm, sh: Shape, f: Frame)
    requires Wf(vm, sh) && f < |vm.used|
    ensures Wf(vm.(used := vm.used[f := true]), sh)
  {
    hide Present, Huge, FrameOf, RootOk;
    var vn := vm.(used := vm.used[f := true]);
    forall p | p in sh.at ensures TableOk(vn, sh, p) { WfTable(vm, sh, p); }
    forall p, i: nat | p in sh.at && |p.path| < 3 && i < 512 ensures SlotOk(vn, sh, p, i) { WfSlot(vm, sh, p, i); }
  }

  /** A free page is taken: it holds data now, and nothing is mapped to it. */
  lemma TakenPage(vm: Vm, sh: Shape, secs: set<Frame>, anon: set<Anon>, f: Frame)
    requires Wf(vm, sh) && FramesOk(vm, sh, secs, anon) && f < |vm.used| && !vm.used[f]
    ensures var v1 := vm.(used := vm.used[f := true]);
      && Wf(v1, sh) && FramesOk(v1, sh, secs, anon) && DataFrame(v1, sh, f) && f !in secs
      && forall s, q: nat | UserPage(sh.copied, s, q) :: FrameAt(vm.mem, s, q) != Some(f)
  {
    UsedGrows(vm, sh, f);
    forall q | q in sh.at ensures sh.at[q] != f { WfTable(vm, sh, q); }
    hide Wf, Lookup, FrameAt, SmallPage, Present;
    var v1 := vm.(used := vm.used[f := true]);
    forall r, p: nat | UserPage(sh.copied, r, p)
      ensures UserPageOk(v1, sh, r, p) && FrameAt(vm.mem, r, p) != Some(f)
    {
      assert UserPageOk(vm, sh, r, p);
    }
    forall g | g in secs ensures DataFrame(v1, sh, g) { assert DataFrame(vm, sh, g); }
  }

  /** A taken page is mapped at a user page: that page is anonymous from now on. */
  lemma AnonPageMapped(vm: Vm, vn: Vm, sh: Shape, sn: Shape, secs: set<Frame>, anon: set<Anon>,
                       r: Frame, va: nat, f: Frame, flags: nat, ok: bool)
    requires Wf(vm, sh) && FramesOk(vm, sh, secs, anon) && UserPage(sh.copied, r, va / 4096) && FrameOf(flags) == 0
    requires f < MAX_PAGES && DataFrame(vm, sh, f) && f !in secs
    requires forall s, q: nat | UserPage(sh.copied, s, q) :: FrameAt(vm.mem, s, q) != Some(f)
    requires PageMapped(vm, vn, sh, sn, r, va, f * 4096, flags, ok)
    ensures FramesOk(vn, sn, secs, if ok then anon + {(r, va / 4096)} else anon)
    ensures !ok ==> forall s, q: nat | UserPage(sh.copied, s, q) :: FrameAt(vn.mem, s, q) != Some(f)
  {
    hide Wf, Lookup, FrameAt, SmallPage, LeafChanged, SameViews, FrameOf, LeafEntry, FreeSet;
    UserPagesAfter(vm, vn, sh, sn, secs, anon, r, va, f, flags, ok);
  }

  /** The pages of all spaces after one was mapped. */
  lemma UserPagesAfter(vm: Vm, vn: Vm, sh: Shape, sn: Shape, secs: set<Frame>, anon: set<Anon>,
                       r: Frame, va: nat, f: Frame, flags: nat, ok: bool)
    requires Wf(vm, sh) && FramesOk(vm, sh, secs, anon) && UserPage(sh.copied, r, va / 4096) && FrameOf(flags) == 0
    requires f < MAX_PAGES && DataFrame(vm, sh, f)
    requires PageMapped(vm, vn, sh, sn, r, va, f * 4096, flags, ok)
    ensures sn.copied == sh.copied && forall g | g in secs :: DataFrame(vn, sn, g)
    ensures forall s, q: nat | UserPage(sh.copied, s, q) :: (UserPageOk(vn, sn, s, q)
      && FrameAt(vn.mem, s, q) == if ok && s == r && q == va / 4096 then Some(f) else FrameAt(vm.mem, s, q))
  {
    hide Wf, Lookup, FrameAt, SmallPage, LeafChanged, SameViews, FrameOf, LeafEntry, FreeSet, DataFrame;
    DataStays(vm, vn, sh, sn, f);
    forall g | g in secs ensures DataFrame(vn, sn, g) { DataStays(vm, vn, sh, sn, g); }
    forall s, q: nat | UserPage(sh.copied, s, q)
      ensures UserPageOk(vn, sn, s, q)
      ensures FrameAt(vn.mem, s, q) == if ok && s == r && q == va / 4096 then Some(f) else FrameAt(vm.mem, s, q)
    {
      UserPageAfter(vm, vn, sh, sn, r, va, f, flags, ok, s, q);
      assert UserPageOk(vm, sh, s, q);
      if FrameAt(vm.mem, s, q).Some? { DataStays(vm, vn, sh, sn, FrameAt(vm.mem, s, q).value); }
    }
  }

  /** One page of a view: a section's frame is mapped at a page that is not anonymous. */
  lemma ViewPageMapped(vm: Vm, vn: Vm, sh: Shape, sn: Shape, secs: set<Frame>, anon: set<Anon>,
                       r: Frame, va: nat, f: Frame, flags: nat, ok: bool)
    requires Wf(vm, sh) && FramesOk(vm, sh, secs, anon) && UserPage(sh.copied, r, va / 4096)
    requires (r, va / 4096) !in anon
    requires FrameOf(flags) == 0 && f < MAX_PAGES && f in secs && PageMapped(vm, vn, sh, sn, r, va, f * 4096, flags, ok)
    ensures FramesOk(vn, sn, secs, anon)
    ensures ok ==> FrameAt(vn.mem, r, va / 4096) == Some(f)
  {
    hide Wf, Lookup, FrameAt, SmallPage, LeafChanged, SameViews, FrameOf, LeafEntry, FreeSet;
    UserPagesAfter(vm, vn, sh, sn, secs, anon, r, va, f, flags, ok);
  }

  /** A page that nothing is mapped to can go back. */
  lemma PageReturned(vm: Vm, sh: Shape, secs: set<Frame>, anon: set<Anon>, f: Frame)
    requires FramesOk(vm, sh, secs, anon) && f < |vm.used| && f !in secs
    requires forall s, q: nat | UserPage(sh.copied, s, q) :: FrameAt(vm.mem, s, q) != Some(f)
    ensures FramesOk(vm.(used := vm.used[f := false]), sh, secs, anon)
  {
    hide Lookup, FrameAt, SmallPage;
    var now := vm.(used := vm.used[f := false]);
    forall r, p: nat | UserPage(sh.copied, r, p) ensures UserPageOk(now, sh, r, p) {
      assert UserPageOk(vm, sh, r, p);
    }
    forall g | g in secs ensures DataFrame(now, sh, g) { assert DataFrame(vm, sh, g); }
  }

  lemma UsedKept(vm: Vm, vn: Vm)
    requires |vn.used| == |vm.used| && FreeSet(vn.used) <= FreeSet(vm.used)
    ensures forall g: nat | g < |vm.used| && vm.used[g] :: vn.used[g]
  {
    forall g: nat | g < |vm.used| && vm.used[g] ensures vn.used[g] {
      assert g !in FreeSet(vn.used);
    }
  }

  /** A section's frames: taken fresh, so no anonymous page has them. */
  lemma SectionPageKeeps(vm: Vm, sh: Shape, secs: set<Frame>, anon: set<Anon>, f: Frame)
    requires Wf(vm, sh) && FramesOk(vm, sh, secs, anon) && f < |vm.used| && !vm.used[f]
    ensures FramesOk(vm.(used := vm.used[f := true]), sh, secs + {f}, anon)
  {
    TakenPage(vm, sh, secs, anon, f);
    hide Lookup, FrameAt, Wf, UserPageOk, DataFrame;
  }

  lemma FewerAnonymous(vm: Vm, sh: Shape, secs: set<Frame>, anon: set<Anon>, fewer: set<Anon>)
    requires FramesOk(vm, sh, secs, anon) && fewer <= anon
    ensures FramesOk(vm, sh, secs, fewer)
  {
    hide Lookup, FrameAt, UserPageOk, DataFrame;
  }

  lemma FewerSections(vm: Vm, sh: Shape, secs: set<Frame>, fewer: set<Frame>, anon: set<Anon>)
    requires FramesOk(vm, sh, secs, anon) && fewer <= secs
    ensures FramesOk(vm, sh, fewer, anon)
  {
    hide Lookup, FrameAt;
  }

  /** The promise in plain words: two user pages with one frame, one of them anonymous, are the
      same page of the same space. */
  lemma AnonymousExclusive(vm: Vm, sh: Shape, secs: set<Frame>, anon: set<Anon>, r: Frame, p: nat, s: Frame, q: nat)
    requires FramesOk(vm, sh, secs, anon) && (r, p) in anon && UserPage(sh.copied, s, q)
    requires Lookup(vm.mem, s, q * 4096).Page4K?
    ensures Lookup(vm.mem, r, p * 4096).Page4K?
    ensures FrameOf(Lookup(vm.mem, s, q * 4096).pte) == FrameOf(Lookup(vm.mem, r, p * 4096).pte) <==> (r, p) == (s, q)
  {
    hide Lookup, FrameOf;
    assert FrameAt(vm.mem, r, p).Some? && FrameAt(vm.mem, s, q).Some?;
  }

  /** Taking a page, as far as the user pages are concerned. */
  lemma TakesPage(vm: Vm, sh: Shape, secs: set<Frame>, anon: set<Anon>)
    requires Wf(vm, sh) && FramesOk(vm, sh, secs, anon)
    ensures var (used, phys) := Alloc(vm.used); var now := Vm(vm.mem, used);
      && phys % 4096 == 0 && phys / 4096 < MAX_PAGES && FramesOk(now, sh, secs, anon)
      && (phys != 0 ==> DataFrame(now, sh, phys / 4096) && phys / 4096 !in secs
                        && forall s, q: nat | UserPage(sh.copied, s, q) ::
                          FrameAt(vm.mem, s, q) != Some(phys / 4096))
  {
    hide Wf, FramesOk, FrameAt, DataFrame;
    WfRoot(vm, sh, sh.k);
    AllocFailsIffExhausted(vm.used);
    var f := FirstFree(vm.used);
    if f < |vm.used| { TakenPage(vm, sh, secs, anon, f); }
  }

  lemma GrownSize(vm: Vm, vn: Vm, sh: Shape, sn: Shape)
    requires Wf(vm, sh) && Wf(vn, sn)
    ensures |vn.used| == |vm.used|
  {
    hide SlotOk, TableOk, RootOk;
  }

  // ---- What one page costs, and what stays --------------------------------------------------

  lemma TakesOne(vm: Vm, sh: Shape)
    requires Wf(vm, sh)
    ensures var (used, phys) := Alloc(vm.used);
      if phys == 0 then used == vm.used && FreeSet(vm.used) == {} && |FreeSet(vm.used)| == 0
      else FreeSet(vm.used) != {} && |FreeSet(used)| + 1 == |FreeSet(vm.used)|
           && FreeSet(used) == FreeSet(vm.used) - {phys / 4096} && phys / 4096 in FreeSet(vm.used)
  {
    WfRoot(vm, sh, sh.k);
    hide Wf;
    AllocFailsIffExhausted(vm.used);
    var f := FirstFree(vm.used);
    if f < |vm.used| { FreeSetUpdate(vm.used, f); }
  }

  /** Mapping a taken page succeeds exactly if the page and the missing tables fitted. */
  lemma TakenPageCosts(vm: Vm, v1: Vm, vn: Vm, sh: Shape, sn: Shape, r: Frame, p: nat, ok: bool)
    requires Wf(v1, sh) && r in sh.copied && SmallPage(v1.mem, r, p) && |FreeSet(v1.used)| + 1 == |FreeSet(vm.used)|
    requires ok <==> !CoveredByHugePage(v1.mem, r, p * 4096) && Missing(v1.mem, r, p * 4096) <= |FreeSet(v1.used)|
    requires Grown(v1, vn, sh, sn) && Paid(v1, vn, sh, sn) && AddedWithin(sh, sn, PathPlaces(sn, r, p * 4096))
    requires ok ==> PathPlaces(sn, r, p * 4096) <= sn.at.Keys
    ensures ok <==> OneFits(vm, sh, r, p, 1)
    ensures ok ==> OneSpent(vm, sh, vn, sn, r, p, 1)
  {
    hide Wf, PathPlaces, FreeSet, Missing, Lookup;
    SamePaths(sh, sn, r, p * 4096);
    FitsExactly(v1, sh, r, p);
    if ok {
      MappedSpent(v1, sh, vn, sn, r, p);
      TakenSpent(vm, v1, sh, vn, sn, r, p);
    }
  }

  /** Mapping a page that exists already costs only the tables. */
  lemma MappedPageCosts(vm: Vm, vn: Vm, sh: Shape, sn: Shape, r: Frame, p: nat, ok: bool)
    requires Wf(vm, sh) && r in sh.copied && SmallPage(vm.mem, r, p)
    requires ok <==> !CoveredByHugePage(vm.mem, r, p * 4096) && Missing(vm.mem, r, p * 4096) <= |FreeSet(vm.used)|
    requires Grown(vm, vn, sh, sn) && Paid(vm, vn, sh, sn) && AddedWithin(sh, sn, PathPlaces(sn, r, p * 4096))
    requires ok ==> PathPlaces(sn, r, p * 4096) <= sn.at.Keys
    ensures ok <==> OneFits(vm, sh, r, p, 0)
    ensures ok ==> OneSpent(vm, sh, vn, sn, r, p, 0)
  {
    hide Wf, PathPlaces, FreeSet, Missing, Lookup;
    SamePaths(sh, sn, r, p * 4096);
    FitsExactly(vm, sh, r, p);
    if ok { MappedSpent(vm, sh, vn, sn, r, p); }
  }

  /** MapPageInto looks at the page of an address only. */
  lemma AtPageStart(m: map<Frame, seq<nat>>, sh: Shape, r: Frame, va: nat)
    ensures var p := va / 4096 * 4096;
      && Dir(p) == Dir(va) && PtIdx(p) == PtIdx(va) && PathPlaces(sh, r, p) == PathPlaces(sh, r, va)
      && CoveredByHugePage(m, r, p) == CoveredByHugePage(m, r, va) && Missing(m, r, p) == Missing(m, r, va)
  {
    SameDigitsWithin(va / 4096 * 4096, va % 4096);
    hide Pml4Idx, PdptIdx, PdIdx, PtIdx, Present, Huge, FrameOf, Entry;
  }

  lemma LeafAtPageStart(vm: Vm, vn: Vm, sh: Shape, r: Frame, va: nat, pte: nat)
    requires LeafChanged(vm, vn, sh, r, va, pte)
    ensures LeafChanged(vm, vn, sh, r, va / 4096 * 4096, pte)
  {
    AtPageStart(vm.mem, sh, r, va);
    hide Lookup, Dir, PtIdx, LeafView;
  }

  /** What MapPageInto promised about an address, at the start of its page. */
  ghost predicate Tried(vm: Vm, vn: Vm, sh: Shape, sn: Shape, r: Frame, va: nat, pte: nat, ok: bool) {
    && (ok <==> !CoveredByHugePage(vm.mem, r, va) && Missing(vm.mem, r, va) <= |FreeSet(vm.used)|)
    && AddedWithin(sh, sn, PathPlaces(sn, r, va)) && (ok ==> PathPlaces(sn, r, va) <= sn.at.Keys)
    && (if ok then LeafChanged(vm, vn, sn, r, va, pte) else SameViews(vm, vn, sn))
  }

  lemma TriedAtPageStart(vm: Vm, vn: Vm, sh: Shape, sn: Shape, r: Frame, va: nat, pte: nat, ok: bool)
    requires Tried(vm, vn, sh, sn, r, va, pte, ok)
    ensures Tried(vm, vn, sh, sn, r, va / 4096 * 4096, pte, ok)
  {
    hide CoveredByHugePage, Missing, FreeSet, AddedWithin, PathPlaces, LeafChanged, SameViews, Dir, PtIdx;
    AtPageStart(vm.mem, sn, r, va);
    if ok { LeafAtPageStart(vm, vn, sn, r, va, pte); }
  }

  /** A page that was taken was mapped at a user page, or not. */
  lemma TakenPageCharged(v0: Vm, vm: Vm, vn: Vm, sh: Shape, sn: Shape, r: Frame, p: nat, pte: nat, ok: bool)
    requires Wf(vm, sh) && UserPage(sh.copied, r, p) && SmallPage(vm.mem, r, p)
    requires vm.mem == v0.mem && |FreeSet(vm.used)| + 1 == |FreeSet(v0.used)|
    requires Grown(vm, vn, sh, sn) && Paid(vm, vn, sh, sn) && Tried(vm, vn, sh, sn, r, p * 4096, pte, ok)
    ensures Charged(v0, sh, vn, sn, r, p, 1, ok)
  {
    assert sn.k == sh.k && sn.copied == sh.copied;
    hide Wf, UserPage, CoveredByHugePage, Missing, FreeSet, Grown, Paid, AddedWithin, PathPlaces, LeafChanged,
      SameViews, OneFits, OneSpent, Kept, SmallPage;
    UserRoot(sh.copied, r, p);
    TakenPageCosts(v0, vm, vn, sh, sn, r, p, ok);
    MappedKeeps(vm, vn, sh, sn, r, p, pte, ok);
    KeptFrom(v0, vm, vn, sn, if ok then {(r, p)} else {});
  }

  lemma KeptFrom(v0: Vm, vm: Vm, vn: Vm, sh: Shape, done: set<Anon>)
    requires vm.mem == v0.mem && Kept(vm, vn, sh, done)
    ensures Kept(v0, vn, sh, done)
  {
    hide Lookup;
  }

  /** Mapping a user page changes that page only. */
  lemma MappedKeeps(vm: Vm, vn: Vm, sh: Shape, sn: Shape, r: Frame, p: nat, pte: nat, ok: bool)
    requires Wf(vm, sh) && UserPage(sh.copied, r, p) && sn.k == sh.k && sn.copied == sh.copied
    requires if ok then LeafChanged(vm, vn, sn, r, p * 4096, pte) else SameViews(vm, vn, sn)
    ensures Kept(vm, vn, sn, if ok then {(r, p)} else {})
  {
    assert r in sh.copied;
    hide Wf, Lookup, LeafView, UserPage, SamePage, Dir;
    if ok {
      forall s: Frame, q: nat | sn.Root(s) && q < 0x10_0000_0000 && (s, q) != (r, p)
        ensures Lookup(vn.mem, s, q * 4096) == Lookup(vm.mem, s, q * 4096)
      {
        OnlyThatPage(vm, sh, r, p, s, q);
      }
    } else {
      KeptAll(vm, vn, sn, {});
    }
  }

  /** The place of a user page is seen by its own space only, at its own page number only. */
  lemma OnlyThatPage(vm: Vm, sh: Shape, r: Frame, p: nat, s: Frame, q: nat)
    requires Wf(vm, sh) && UserPage(sh.copied, r, p) && sh.Root(s) && q < 0x10_0000_0000
    ensures SamePage(p * 4096, q * 4096) && sh.Owner(s, Dir(p * 4096)) == sh.Owner(r, Dir(p * 4096)) ==>
              s == r && q == p
  {
    assert r in sh.copied && p < 0x10_0000_0000;
    WfRoot(vm, sh, sh.k);
    UserPageIsPrivate(vm, sh, r, p);
    hide Wf, Pml4Idx, PdptIdx, PdIdx, PtIdx, UserPage, RootOk;
    PageNumber(p);
    PageNumber(q);
    SamePageIff(p * 4096, q * 4096);
  }

  // ---- The ranges handed out ---------------------------------------------------------------

  datatype Grant = Grant(root: Frame, va: nat, pages: nat, private_: bool)

  /** The `i`-th page of a range. */
  function RangePage(r: Frame, va: nat, i: nat): Anon { (r, va / 4096 + i) }

  /** Ranges are page aligned, inside the window, disjoint within a space, and made of anonymous
      pages where they are private. */
  ghost predicate GrantsOk(grants: seq<Grant>, anon: set<Anon>) {
    && (forall g | g in grants :: g.va % 4096 == 0 && HEAP_BASE <= g.va && g.va + g.pages * 4096 <= HEAP_MAX)
    && (forall i, j | 0 <= i < j < |grants| && grants[i].root == grants[j].root ::
          grants[i].va + grants[i].pages * 4096 <= grants[j].va)
    && (forall g, i: nat | g in grants && g.private_ && i < g.pages :: RangePage(g.root, g.va, i) in anon)
  }

  /** What the cursor of space `r` bounds: everything handed out in it so far. */
  ghost predicate Below(grants: seq<Grant>, anon: set<Anon>, r: Frame, cursor: nat) {
    && CursorOk(cursor)
    && (forall g | g in grants && g.root == r :: g.va + g.pages * 4096 <= cursor)
    && (forall a | a in anon && a.0 == r && WindowPage(a.1) :: a.1 < cursor / 4096)
  }

  /** A page outside the window that becomes anonymous does not concern the ranges. */
  lemma OutsideWindow(grants: seq<Grant>, anon: set<Anon>, a: Anon, r: Frame, cursor: nat)
    requires !WindowPage(a.1)
    ensures GrantsOk(grants, anon) ==> GrantsOk(grants, anon + {a})
    ensures Below(grants, anon, r, cursor) ==> Below(grants, anon + {a}, r, cursor)
  {}

  lemma GrantKeeps(grants: seq<Grant>, anon: set<Anon>, r: Frame, cursor: nat, pages: nat, more: set<Anon>,
                   private_: bool)
    requires GrantsOk(grants, anon) && Below(grants, anon, r, cursor) && cursor + pages * 4096 <= HEAP_MAX
    requires forall a | a in more :: a.0 == r && a.1 < cursor / 4096 + pages
    requires private_ ==> forall i: nat | i < pages :: RangePage(r, cursor, i) in more
    ensures GrantsOk(grants + [Grant(r, cursor, pages, private_)], anon + more)
    ensures GrantsOk(grants, anon + more)
    ensures Below(grants + [Grant(r, cursor, pages, private_)], anon + more, r, cursor + pages * 4096)
    ensures Below(grants, anon + more, r, cursor + pages * 4096)
  {
    assert (cursor + pages * 4096) / 4096 == cursor / 4096 + pages;
  }

  /** Any two ranges handed out in one space share no address. */
  lemma GrantsDisjoint(grants: seq<Grant>, anon: set<Anon>, i: nat, j: nat, va: nat)
    requires GrantsOk(grants, anon) && i < |grants| && j < |grants| && grants[i].root == grants[j].root && i != j
    ensures !(grants[i].va <= va < grants[i].va + grants[i].pages * 4096
              && grants[j].va <= va < grants[j].va + grants[j].pages * 4096)
  {
    if i < j {
      assert grants[i].va + grants[i].pages * 4096 <= grants[j].va;
    } else {
      assert grants[j].va + grants[j].pages * 4096 <= grants[i].va;
    }
  }
}
