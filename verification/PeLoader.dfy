/** The loader of kernel/ldr/pe_loader.cpp, and GetProcAddress of user/kernel32/kernel32.cpp, working
    step by step. */
module PeLoader {
  import opened Wrappers
  import opened ByteBuffers
  import opened PmmSpec
  import opened PageTables
  import opened VirtualMemory
  import AccessRights
  import AddressSpaces
  import UserMemorySpec
  import opened MappingCosts
  import opened PeFormat
  import opened PeMapping
  import opened PeImports
  import opened LoadedImages

  const MAX_MODULES: nat := 64

  // ---- The scanning loops -------------------------------------------------------------------

  /** streq. */
  method CompareStrings(m: Memory, off: nat, s: seq<byte>) returns (r: Option<bool>)
    ensures r == StrEq(m, off, s)
  {
    hide Byte;
    var i := 0;
    while i < |s|
      invariant 0 <= i <= |s| && StrEq(m, off, s) == StrEq(m, off + i, s[i..])
    {
      assert s[i..][1..] == s[i + 1..];
      var c := Byte(m, off + i);
      if c.None? { return None; }
      if c.value == 0 || c.value != s[i] { return Some(c.value == s[i]); }
      i := i + 1;
    }
    return None;
  }

  /** rva_to_off. */
  method FindOffset(m: Memory, headers: nat, n: nat, rva: nat) returns (r: Option<nat>)
    ensures r == RvaToOff(m, headers, n, rva)
  {
    hide Load;
    var i := 0;
    while i < n
      invariant 0 <= i <= n && RvaToOff(m, headers, n, rva) == RvaToOff(m, headers + 40 * i, n - i, rva)
    {
      var start := Load(m, headers + 40 * i + 12, 4);
      if start.None? { return None; }
      var size := Load(m, headers + 40 * i + 8, 4);
      if size.None? { return None; }
      var raw := Load(m, headers + 40 * i + 20, 4);
      if raw.None? { return None; }
      if start.value <= rva < (start.value + size.value) % TWO32 {
        return Some((raw.value + (rva - start.value)) % TWO32);
      }
      i := i + 1;
    }
    return Some(0);
  }

  /** The name loop of FindExport. */
  method ScanFileNames(m: Memory, headers: nat, n: nat, t: Exports, base: nat, s: seq<byte>) returns (r: Option<nat>)
    ensures r == ScanFile(m, headers, n, t, base, s, 0)
  {
    hide Load, RvaToOff, StrEq, PeFormat.Address;
    var i := 0;
    while i < t.count
      invariant 0 <= i <= t.count && ScanFile(m, headers, n, t, base, s, 0) == ScanFile(m, headers, n, t, base, s, i)
    {
      var rva := Load(m, t.names + 4 * i, 4);
      if rva.None? { return None; }
      var off := FindOffset(m, headers, n, rva.value);
      if off.None? { return None; }
      if off.value != 0 {
        var same := CompareStrings(m, off.value, s);
        if same.None? { return None; }
        if same.value { return PeFormat.Address(m, t, base, i); }
      }
      i := i + 1;
    }
    return Some(0);
  }

  /** FindExport. */
  method ResolveExport(file: seq<byte>, base: nat, s: seq<byte>) returns (r: Option<nat>)
    ensures r == FindExport(file, base, s)
  {
    hide Load, RvaToOff, ScanFile, ExportsAt;
    var m := Blob(file);
    var pe := Load(m, 60, 4);
    if pe.None? { return None; }
    var dir := Load(m, pe.value + 136, 4);
    if dir.None? { return None; }
    if dir.value == 0 { return Some(0); }
    var n := Load(m, pe.value + 6, 2);
    if n.None? { return None; }
    var size := Load(m, pe.value + 20, 2);
    if size.None? { return None; }
    var headers := pe.value + 24 + size.value;
    var ed := FindOffset(m, headers, n.value, dir.value);
    if ed.None? { return None; }
    if ed.value == 0 { return Some(0); }
    var t := ExportsAt(m, ed.value);
    if t.None? { return None; }
    var funcs := FindOffset(m, headers, n.value, t.value.funcs);
    if funcs.None? { return None; }
    var names := FindOffset(m, headers, n.value, t.value.names);
    if names.None? { return None; }
    var ords := FindOffset(m, headers, n.value, t.value.ords);
    if ords.None? { return None; }
    if funcs.value == 0 || names.value == 0 || ords.value == 0 { return Some(0); }
    r := ScanFileNames(m, headers, n.value, Exports(t.value.count, funcs.value, names.value, ords.value), base, s);
  }

  /** GetProcAddress of kernel32. */
  method ResolveProc(m: Memory, base: nat, s: seq<byte>) returns (r: Option<nat>)
    ensures r == GetProcAddress(m, base, s)
  {
    hide Load, StrEq, ExportsAt, PeFormat.Address;
    var pe := Load(m, 60, 4);
    if pe.None? { return None; }
    var dir := Load(m, pe.value + 136, 4);
    if dir.None? { return None; }
    if dir.value == 0 { return Some(0); }
    var t := ExportsAt(m, dir.value);
    if t.None? { return None; }
    var i := 0;
    while i < t.value.count
      invariant 0 <= i <= t.value.count && ScanImage(m, t.value, base, s, 0) == ScanImage(m, t.value, base, s, i)
    {
      var rva := Load(m, t.value.names + 4 * i, 4);
      if rva.None? { return None; }
      var same := CompareStrings(m, rva.value, s);
      if same.None? { return None; }
      if same.value { return PeFormat.Address(m, t.value, base, i); }
      i := i + 1;
    }
    return Some(0);
  }

  // ---- Filling pages ------------------------------------------------------------------------

  /** The header page, byte by byte. */
  method FillHeader(file: seq<byte>) returns (page: array<byte>)
    ensures fresh(page) && page[..] == HeaderPage(file)
  {
    page := new byte[4096];
    var i := 0;
    while i < 4096
      invariant 0 <= i <= 4096
      invariant forall j | 0 <= j < i :: page[j] == HeaderPage(file)[j]
    {
      page[i] := if i < |file| then file[i] else 0;
      i := i + 1;
    }
    assert page[..] == HeaderPage(file);
  }

  /** A section page: zeros, then what is copied. */
  method FillSectionPage(file: seq<byte>, s: Section, pg: nat) returns (page: array<byte>)
    ensures fresh(page) && page[..] == SectionPage(file, s, pg)
  {
    page := new byte[4096](_ => 0);
    var off := s.rawOff + pg * 4096;
    var copy := Copied(file, s, pg);
    var i := 0;
    while i < copy
      invariant 0 <= i <= copy
      invariant forall j | 0 <= j < 4096 :: page[j] == if j < i then file[off + j] else 0
    {
      page[i] := file[off + i];
      i := i + 1;
    }
    assert page[..] == SectionPage(file, s, pg);
  }

  /** SectionPteFlags: present and user, writable if the section is. */
  function SectionFlags(flags: nat): nat { if flags / 0x8000_0000 % 2 == 1 then 7 else 5 }

  lemma FlagsAreBits(s: Section)
    ensures SectionFlags(s.flags) == SectionBits(s) && (SectionBits(s) == READ_ONLY || SectionBits(s) == READ_WRITE)
  {}

  lemma HeaderBits(m: map<Frame, seq<nat>>, root: Frame, base: nat)
    requires PageHas(m, root, base, 0, READ_ONLY)
    ensures forall secs :: BitsHere(m, root, base, BitsOf(secs, 0))
  {
    hide PageHas;
  }

  /** Mapping one page of an image leaves the others as they are. */
  lemma OthersKept(vm: Vm, sh: Shape, vn: Vm, sn: Shape, root: Frame, base: nat, p: nat)
    requires Charged(vm, sh, vn, sn, root, base / 4096 + p, 1, true) && UserBase(sh.copied, root, base)
    requires sn.copied == sh.copied && sn.k == sh.k
    ensures forall q: nat | q < 0x20_0000 && q != p :: PageKept(vm.mem, vn.mem, root, base, q)
  {
    hide Lookup, OneFits, OneSpent, UserMemorySpec.UserPage, Wf;
    BaseAligned(sh.copied, root, base);
    forall q: nat | q < 0x20_0000 && q != p ensures PageKept(vm.mem, vn.mem, root, base, q) {
      assert UserMemorySpec.UserPage(sh.copied, root, base / 4096 + q);
      PageNumberBound(sh.copied, root, base / 4096 + q);
      ViewKept(vm, vn, sn, root, base / 4096 + p, base / 4096 + q);
    }
  }

  lemma ViewKept(vm: Vm, vn: Vm, sh: Shape, r: Frame, p: nat, q: nat)
    requires Kept(vm, vn, sh, {(r, p)}) && sh.Root(r) && q < 0x10_0000_0000 && q != p
    ensures Lookup(vn.mem, r, q * 4096) == Lookup(vm.mem, r, q * 4096)
  {
    hide Lookup;
    assert (r, q) !in {(r, p)};
  }

  lemma PageNumberBound(c: map<Frame, set<nat>>, root: Frame, p: nat)
    requires UserMemorySpec.UserPage(c, root, p)
    ensures p < 0x10_0000_0000
  {}

  lemma FlagsHaveNoFrame(flags: nat)
    ensures FrameOf(SectionFlags(flags)) == 0 && FrameOf(5) == 0
  {}

  // ---- The loader ---------------------------------------------------------------------------

  class Loader {
    const vmm: Vmm
    var ram: Ram
    var mods: seq<Module>

    ghost predicate Valid()
      reads this, vmm, vmm.pmm, vmm.pmm.bitmap
    {
      vmm.Valid() && |mods| <= MAX_MODULES
    }

    constructor (vmm: Vmm)
      requires vmm.Valid()
      ensures Valid() && this.vmm == vmm && mods == [] && ram == map[]
    {
      this.vmm := vmm;
      ram := map[];
      mods := [];
    }

    /** RegisterModule: append-only, names cut to 31 bytes. */
    method RegisterModule(name: seq<byte>, base: nat, file: seq<byte>)
      requires Valid()
      modifies this`mods
      ensures Valid()
      ensures mods == if |old(mods)| >= MAX_MODULES then old(mods)
                      else old(mods) + [Module(if |name| >= 32 then name[..31] else name, base, file)]
    {
      if |mods| >= MAX_MODULES { return; }
      var n := if |name| >= 32 then 31 else |name|;
      assert name[..|name|] == name;
      mods := mods + [Module(name[..n], base, file)];
    }

    /** One page: a frame is taken, filled and mapped; it goes back if mapping fails. */
    method MapImagePage(root: Frame, base: nat, va: nat, page: seq<byte>, flags: nat, ghost p: nat, ghost img: Image,
                        ghost secs: set<Frame>, ghost anon: set<UserMemorySpec.Anon>) returns (ok: bool)
      requires Valid() && FrameOf(flags) == 0 && |page| == 4096 && (flags == READ_ONLY || flags == READ_WRITE)
      requires UserBase(vmm.shape.copied, root, base) && va / 4096 == base / 4096 + p && p < 0x20_0000
      requires Here(root, base, img, secs, anon)
      modifies this`ram, vmm`mem, vmm`shape, vmm.pmm, vmm.pmm.bitmap
      ensures Valid() && vmm.shape.copied == old(vmm.shape.copied)
      ensures ok ==> Here(root, base, img[p := page], secs, anon)
      ensures !ok ==> UserMemorySpec.FramesOk(vmm.Memory(), vmm.shape, secs, anon)
      ensures Charged(old(vmm.Memory()), old(vmm.shape), vmm.Memory(), vmm.shape, root, va / 4096, 1, ok)
      ensures ok ==> PageHas(vmm.mem, root, base, p, flags)
    {
      hide Wf, ImageHere, FrameReady, LeafChanged, SameViews, MapPageInto, LeafEntry, FrameOf, CoveredByHugePage,
        Missing, FreeSet, Alloc, Free, Grown, UserMemorySpec.FramesOk, UserMemorySpec.DataFrame,
        UserMemorySpec.FrameAt, UserMemorySpec.UserPage, ImagePagesOf, Charged, PageHas;
      ghost var all, v0 := anon + ImagePagesOf(root, base, img), vmm.Memory();
      assert UserMemorySpec.UserPage(vmm.shape.copied, root, va / 4096);
      OnePageMore(root, base, img, p, page);
      TakesFrame(v0, vmm.shape, ram, root, base, img, page);
      UserMemorySpec.TakesOne(v0, vmm.shape);
      UserMemorySpec.TakesPage(v0, vmm.shape, secs, all);
      var phys := vmm.pmm.AllocPage();
      if phys == 0 {
        UserMemorySpec.FewerAnonymous(vmm.Memory(), vmm.shape, secs, all, anon);
        NothingFree(v0, vmm.Memory(), vmm.shape, root, va / 4096);
        return false;
      }
      ram := ram[phys / 4096 := page];
      ok := MapFrame(root, base, va, phys, page, flags, p, img, secs, anon, v0);
    }

    /** The second half: a taken frame is mapped, or given back. */
    method MapFrame(root: Frame, base: nat, va: nat, phys: nat, ghost page: seq<byte>, flags: nat, ghost p: nat,
                    ghost img: Image, ghost secs: set<Frame>, ghost anon: set<UserMemorySpec.Anon>, ghost v0: Vm)
        returns (ok: bool)
      requires Valid() && FrameOf(flags) == 0 && UserMemorySpec.UserPage(vmm.shape.copied, root, va / 4096)
      requires flags == READ_ONLY || flags == READ_WRITE
      requires va / 4096 == base / 4096 + p && p < 0x20_0000
      requires Here(root, base, img, secs, anon) && phys % 4096 == 0 && phys / 4096 < MAX_PAGES && phys / 4096 !in secs
      requires FrameReady(vmm.Memory(), vmm.shape, ram, root, base, img, phys / 4096, page)
      requires UserMemorySpec.DataFrame(vmm.Memory(), vmm.shape, phys / 4096)
      requires forall s, q: nat | UserMemorySpec.UserPage(vmm.shape.copied, s, q) ::
        UserMemorySpec.FrameAt(vmm.mem, s, q) != Some(phys / 4096)
      requires vmm.mem == v0.mem && |FreeSet(vmm.pmm.used)| + 1 == |FreeSet(v0.used)|
      modifies vmm`mem, vmm`shape, vmm.pmm, vmm.pmm.bitmap
      ensures Valid() && vmm.shape.copied == old(vmm.shape.copied)
      ensures ok ==> Here(root, base, img[p := page], secs, anon)
      ensures !ok ==> UserMemorySpec.FramesOk(vmm.Memory(), vmm.shape, secs, anon)
      ensures Charged(v0, old(vmm.shape), vmm.Memory(), vmm.shape, root, va / 4096, 1, ok)
      ensures ok ==> PageHas(vmm.mem, root, base, p, flags)
    {
      hide Wf, ImageHere, FrameReady, LeafChanged, SameViews, MapPageInto, LeafEntry, FrameOf, CoveredByHugePage,
        Missing, FreeSet, Free, Grown, UserMemorySpec.FramesOk, UserMemorySpec.DataFrame, UserMemorySpec.FrameAt,
        UserMemorySpec.UserPage, ImagePagesOf, Paid, AddedWithin, PathPlaces, Charged, PageHas, GetPteInto, OpenLinks,
        AddressSpaces.PathsOpen;
      ghost var vm, sh, pte := vmm.Memory(), vmm.shape, LeafEntry(phys, flags);
      UserMemorySpec.UserRoot(sh.copied, root, va / 4096);
      PageIsSmall(vm, sh, secs, anon + ImagePagesOf(root, base, img), root, va / 4096);
      ok := vmm.MapPage(root, va, phys, flags);
      GrownSize(vm, sh, vmm.Memory(), vmm.shape);
      assert phys == phys / 4096 * 4096;
      UserMemorySpec.TriedAtPageStart(vm, vmm.Memory(), sh, vmm.shape, root, va, pte, ok);
      UserMemorySpec.TakenPageCharged(v0, vm, vmm.Memory(), sh, vmm.shape, root, va / 4096, pte, ok);
      if ok {
        EntryHas(vmm.mem, root, base, va, p, phys / 4096 % 0x100_0000_0000, flags);
        FrameMapped(vm, vmm.Memory(), sh, vmm.shape, ram, root, base, va, phys / 4096, page, flags, p, img, secs, anon);
      } else {
        FrameReturned(vm, vmm.Memory(), sh, vmm.shape, ram, root, base, va, phys / 4096, page, flags, img, secs, anon);
        ghost var v1 := vmm.Memory();
        vmm.pmm.FreePage(phys);
        ChargedAnyway(v0, sh, v1, vmm.Memory(), vmm.shape, root, va / 4096);
      }
    }

    /** The image laid out so far is there, on data pages of its own. */
    ghost predicate Here(root: Frame, base: nat, img: Image, secs: set<Frame>, anon: set<UserMemorySpec.Anon>)
      reads this, vmm, vmm.pmm`used
    {
      && ImageHere(vmm.Memory(), ram, root, base, img)
      && UserMemorySpec.FramesOk(vmm.Memory(), vmm.shape, secs, anon + ImagePagesOf(root, base, img))
    }

    /** MapSections: the header page, then the pages of every section that has size and address.  It
        succeeds exactly when those pages, and the tables they need, fit in free memory; no other page
        changes. */
    method MapSections(file: seq<byte>, ghost l: Layout, root: Frame, base: nat,
                       ghost secs: set<Frame>, ghost anon: set<UserMemorySpec.Anon>) returns (st: Status)
      requires Valid() && UserBase(vmm.shape.copied, root, base) && HasLayout(file, l)
      requires UserMemorySpec.FramesOk(vmm.Memory(), vmm.shape, secs, anon)
      modifies this`ram, vmm`mem, vmm`shape, vmm.pmm, vmm.pmm.bitmap
      ensures Valid() && vmm.shape.copied == old(vmm.shape.copied)
      ensures st == if old(ImageFits(vmm.Memory(), vmm.shape, root, base, l.secs)) then Success else NoResources
      ensures st == Success ==> Here(root, base, ImageOf(file, l.secs, |l.secs|), secs, anon)
      ensures st == Success ==> BitsHere(vmm.mem, root, base, BitsOf(l.secs, |l.secs|))
      ensures st != Success ==> UserMemorySpec.FramesOk(vmm.Memory(), vmm.shape, secs, anon)
      ensures Kept(old(vmm.Memory()), vmm.Memory(), vmm.shape, ListPages(root, ImageList(base, l.secs, |l.secs|)))
    {
      hide Wf, ImageHere, Load, SectionAt, HeaderPage, SectionPage, FrameOf, SectionFlags, PageCount, HasSections,
        Here, UserMemorySpec.FramesOk, UserBase, Charged, Mapped, Stuck, ImageList, SectionList, FreeSet, BitsHere,
        PageHas;
      var m := Blob(file);
      var pe := Load(m, 60, 4).value;
      var count := Load(m, pe + 6, 2).value;
      var headers := pe + 24 + Load(m, pe + 20, 2).value;
      ghost var v0, s0 := vmm.Memory(), vmm.shape;
      FlagsHaveNoFrame(0);
      NothingHere(root, base, secs, anon);
      var header := FillHeader(file);
      BaseAligned(s0.copied, root, base);
      var ok := MapImagePage(root, base, base, header[..], 5, 0, map[], secs, anon);
      HeaderCharged(v0, s0, vmm.Memory(), vmm.shape, root, base, l.secs, ok);
      if !ok {
        ImageStuck(v0, s0, vmm.Memory(), vmm.shape, root, base, l.secs, 0);
        return NoResources;
      }
      HeaderBits(vmm.mem, root, base);
      var k := 0;
      while k < count
        invariant 0 <= k <= count == |l.secs| && headers == l.headers
        invariant Valid() && vmm.shape.copied == s0.copied && vmm.shape.k == s0.k
        invariant Here(root, base, ImageOf(file, l.secs, k), secs, anon)
        invariant BitsHere(vmm.mem, root, base, BitsOf(l.secs, k))
        invariant Mapped(v0, s0, vmm.Memory(), vmm.shape, root, ImageList(base, l.secs, k))
      {
        HeaderThere(m, headers, l.secs, k);
        ImageListStep(base, l.secs, k);
        var s := SectionAt(m, headers + 40 * k).value;
        if s.size != 0 && s.rva != 0 {
          ok := MapSection(file, s, root, base, ImageOf(file, l.secs, k), BitsOf(l.secs, k), secs, anon, v0, s0,
                           ImageList(base, l.secs, k));
          if !ok {
            ImageStuck(v0, s0, vmm.Memory(), vmm.shape, root, base, l.secs, k + 1);
            return NoResources;
          }
        }
        k := k + 1;
      }
      ImageMapped(v0, s0, vmm.Memory(), vmm.shape, root, base, l.secs);
      return Success;
    }

    /** The page loop of MapSections. */
    method MapSection(file: seq<byte>, s: Section, root: Frame, base: nat, ghost img: Image, ghost bits: Bits,
                      ghost secs: set<Frame>, ghost anon: set<UserMemorySpec.Anon>, ghost v0: Vm, ghost s0: Shape,
                      ghost done: seq<nat>)
        returns (ok: bool)
      requires Valid() && UserBase(vmm.shape.copied, root, base) && s.rva < TWO32 && BitsHere(vmm.mem, root, base, bits)
      requires Here(root, base, img, secs, anon)
      requires vmm.shape.copied == s0.copied && vmm.shape.k == s0.k
      requires Mapped(v0, s0, vmm.Memory(), vmm.shape, root, done)
      modifies this`ram, vmm`mem, vmm`shape, vmm.pmm, vmm.pmm.bitmap
      ensures Valid() && vmm.shape.copied == old(vmm.shape.copied)
      ensures ok ==> Here(root, base, WithSection(img, file, s, PageCount(s.size)), secs, anon)
      ensures ok ==> BitsHere(vmm.mem, root, base, WithBits(bits, s, PageCount(s.size)))
      ensures !ok ==> UserMemorySpec.FramesOk(vmm.Memory(), vmm.shape, secs, anon)
      ensures var all := done + SectionList(base, s, PageCount(s.size));
        if ok then Mapped(v0, s0, vmm.Memory(), vmm.shape, root, all)
        else Stuck(v0, s0, vmm.Memory(), vmm.shape, root, all)
    {
      hide Wf, ImageHere, SectionPage, FrameOf, SectionFlags, PageCount, Here, UserMemorySpec.FramesOk, UserBase,
        Charged, Mapped, Stuck, SectionList, FreeSet, BitsHere, PageHas;
      FlagsHaveNoFrame(s.flags);
      FlagsAreBits(s);
      PageCountBound(s.size);
      BaseAligned(s0.copied, root, base);
      SectionListStart(base, s, done);
      var pg := 0;
      while pg < PageCount(s.size)
        invariant 0 <= pg <= PageCount(s.size)
        invariant Valid() && vmm.shape.copied == s0.copied && vmm.shape.k == s0.k
        invariant Here(root, base, WithSection(img, file, s, pg), secs, anon)
        invariant BitsHere(vmm.mem, root, base, WithBits(bits, s, pg))
        invariant Mapped(v0, s0, vmm.Memory(), vmm.shape, root, done + SectionList(base, s, pg))
      {
        PageNumber(base, s.rva, pg);
        SectionListStep(base, s, pg, PageCount(s.size), done);
        var page := FillSectionPage(file, s, pg);
        ghost var was, vm, sh := WithSection(img, file, s, pg), vmm.Memory(), vmm.shape;
        ok := MapImagePage(root, base, base + s.rva + pg * 4096, page[..], SectionFlags(s.flags), s.rva / 4096 + pg,
                           was, secs, anon);
        MappedNext(v0, s0, vm, sh, vmm.Memory(), vmm.shape, root, done + SectionList(base, s, pg),
                   base / 4096 + (s.rva / 4096 + pg), ok);
        if !ok {
          StuckLonger(v0, s0, vmm.Memory(), vmm.shape, root, done + SectionList(base, s, pg + 1),
                      SectionRest(base, s, pg + 1, PageCount(s.size)));
          return;
        }
        OthersKept(vm, sh, vmm.Memory(), vmm.shape, root, base, s.rva / 4096 + pg);
        BitsNext(vm.mem, vmm.mem, root, base, WithBits(bits, s, pg), s.rva / 4096 + pg, SectionBits(s));
        pg := pg + 1;
      }
      ok := true;
    }

    lemma NothingHere(root: Frame, base: nat, secs: set<Frame>, anon: set<UserMemorySpec.Anon>)
      requires UserMemorySpec.FramesOk(vmm.Memory(), vmm.shape, secs, anon)
      ensures Here(root, base, map[], secs, anon)
    {
      hide UserMemorySpec.FramesOk, ImagePagesOf;
      OnePageMore(root, base, map[], 0, []);
      assert anon + {} == anon;
    }

    /** PatchIATSlot: a load at the slot's address in the space then gives the value. */
    method PatchIatSlot(root: Frame, va: nat, value: nat) returns (ok: bool)
      modifies this`ram
      ensures ok <==> Translate(vmm.mem, root, va) != 0
      ensures ram == if ok then Store(old(ram), Translate(vmm.mem, root, va), value, 8) else old(ram)
      ensures ok && value < TWO64 && va % 4096 <= 4088 && Held(old(ram), Translate(vmm.mem, root, va), 8) ==>
        Load(Space(vmm.mem, root, ram, 0), va, 8) == Some(value)
    {
      hide Translate, Store, Load, Held;
      var phys := Translate(vmm.mem, root, va);
      if phys == 0 { return false; }
      ghost var was := ram;
      ram := Store(ram, phys, value, 8);
      if value < TWO64 && va % 4096 <= 4088 && Held(was, phys, 8) {
        StoredReadsBack(vmm.mem, root, was, va, value);
      }
      return true;
    }

    /** FindModule. */
    method LookUpModule(file: seq<byte>, off: nat) returns (r: Option<Option<Module>>)
      ensures r == FindModule(mods, file, off)
    {
      hide StrEq;
      var i := 0;
      while i < |mods|
        invariant 0 <= i <= |mods| && FindModule(mods, file, off) == FindModule(mods[i..], file, off)
      {
        assert mods[i..][0] == mods[i] && mods[i..][1..] == mods[i + 1..];
        var same := CompareStrings(Blob(file), off, mods[i].name + [0]);
        if same.None? { return None; }
        if same.value { return Some(Some(mods[i])); }
        i := i + 1;
      }
      return Some(None);
    }

    /** One lookup entry. */
    method ReadThunk(file: seq<byte>, ghost l: Layout, headers: nat, count: nat, mod: Module, ints: nat, slot: nat)
        returns (r: Target)
      requires headers == l.headers && count == |l.secs|
      ensures r == TargetOf(file, l, mod, ints, slot)
    {
      hide Thunk, ByOrdinal, FindExport, RvaToOff, From;
      var thunk := Thunk(file, ints, slot);
      if thunk.None? { return Bad(Faulted); }
      if thunk.value == 0 { return End; }
      if ByOrdinal(thunk.value) { return Skip; }
      var off := FindOffset(Blob(file), headers, count, thunk.value % TWO32);
      if off.None? { return Bad(Faulted); }
      if off.value == 0 { return Skip; }
      var va := ResolveExport(mod.file, mod.base, From(file, off.value + 2));
      if va.None? { return Bad(Faulted); }
      if va.value == 0 { return Bad(NotFound); }
      return Resolved(va.value);
    }

    /** The thunk loop for one module. */
    method PatchThunks(file: seq<byte>, ghost l: Layout, headers: nat, count: nat, root: Frame, base: nat,
                       mod: Module, ints: nat, iat: nat) returns (st: Status)
      requires headers == l.headers && count == |l.secs|
      modifies this`ram
      ensures Outcome(vmm.mem, root, base, old(ram), ram, Thunks(file, l, mod, ints, iat, 0), st)
    {
      hide Translate, Store, TargetOf, Apply, Thunks;
      NoPatches(vmm.mem, root, base, ram);
      ghost var done: seq<Patch>, was := [], ram;
      ghost var all := Thunks(file, l, mod, ints, iat, 0);
      var slot := 0;
      while true
        invariant Apply(vmm.mem, root, base, was, done) == (ram, true)
        invariant all.0 == done + Thunks(file, l, mod, ints, iat, slot).0
        invariant all.1 == Thunks(file, l, mod, ints, iat, slot).1
        decreases |file| - 8 * slot
      {
        ThunkStep(file, l, mod, ints, iat, slot, done);
        var target := ReadThunk(file, l, headers, count, mod, ints, slot);
        if target.Bad? { return target.st; }
        if target.End? { return Success; }
        if target.Resolved? {
          ghost var p := Patch(iat + 8 * slot, target.va);
          ApplyOneMore(vmm.mem, root, base, was, done, p);
          var ok := PatchIatSlot(root, base + iat + slot * 8, target.va);
          if !ok {
            ApplyStops(vmm.mem, root, base, was, done + [p], Thunks(file, l, mod, ints, iat, slot + 1).0);
            return NoResources;
          }
          done := done + [p];
        }
        slot := slot + 1;
      }
    }

    /** One import descriptor. */
    method PatchModule(file: seq<byte>, ghost l: Layout, headers: nat, count: nat, root: Frame, base: nat,
                       d: Descriptor)
        returns (st: Status)
      requires headers == l.headers && count == |l.secs|
      modifies this`ram
      ensures Outcome(vmm.mem, root, base, old(ram), ram, OneModule(file, l, mods, d), st)
    {
      hide Translate, Store, RvaToOff, FindModule, Thunks;
      NoPatches(vmm.mem, root, base, ram);
      var name := FindOffset(Blob(file), headers, count, d.name);
      if name.None? { return Faulted; }
      if name.value == 0 { return Success; }
      var mod := LookUpModule(file, name.value);
      if mod.None? { return Faulted; }
      if mod.value.None? { return NotFound; }
      var ints := FindOffset(Blob(file), headers, count, if d.ints != 0 then d.ints else d.iat);
      if ints.None? { return Faulted; }
      if ints.value == 0 { return Success; }
      st := PatchThunks(file, l, headers, count, root, base, mod.value.value, ints.value, d.iat);
    }

    /** ResolveImports: the wanted slots are stored in order, up to the first one that is not mapped. */
    method ResolveImports(file: seq<byte>, ghost l: Layout, root: Frame, base: nat) returns (st: Status)
      requires HasLayout(file, l)
      modifies this`ram
      ensures Outcome(vmm.mem, root, base, old(ram), ram, Wanted(file, l, mods), st)
    {
      hide Translate, Store, Load, RvaToOff, Descriptors, HasSections;
      var m := Blob(file);
      var pe := Load(m, 60, 4).value;
      var count := Load(m, pe + 6, 2).value;
      var headers := pe + 24 + Load(m, pe + 20, 2).value;
      NoPatches(vmm.mem, root, base, ram);
      var rva := Load(m, pe + 144, 4);
      if rva.None? { return Faulted; }
      if rva.value == 0 { return Success; }
      var off := FindOffset(m, headers, count, rva.value);
      if off.None? { return Faulted; }
      if off.value == 0 { return InvalidImage; }
      st := PatchDescriptors(file, l, headers, count, root, base, off.value);
    }

    /** The descriptor loop. */
    method PatchDescriptors(file: seq<byte>, ghost l: Layout, headers: nat, count: nat, root: Frame, base: nat,
                            start: nat)
        returns (st: Status)
      requires headers == l.headers && count == |l.secs|
      modifies this`ram
      ensures Outcome(vmm.mem, root, base, old(ram), ram, Descriptors(file, l, mods, start), st)
    {
      hide Translate, Store, DescriptorAt, OneModule, Apply;
      NoPatches(vmm.mem, root, base, ram);
      ghost var done: seq<Patch>, was := [], ram;
      ghost var all := Descriptors(file, l, mods, start);
      var off := start;
      while true
        invariant Apply(vmm.mem, root, base, was, done) == (ram, true)
        invariant all.0 == done + Descriptors(file, l, mods, off).0 && all.1 == Descriptors(file, l, mods, off).1
        decreases |file| - off
      {
        assert done + [] == done;
        var d := DescriptorAt(file, off);
        if d.None? { return Faulted; }
        if Terminates(d.value) { return Success; }
        ghost var ps, walk := OneModule(file, l, mods, d.value).0, OneModule(file, l, mods, d.value).1;
        ApplyJoins(vmm.mem, root, base, was, done, ps);
        st := PatchModule(file, l, headers, count, root, base, d.value);
        if st != Success {
          if walk == Success {
            ApplyStops(vmm.mem, root, base, was, done + ps, Descriptors(file, l, mods, off + 20).0);
            assert all.0 == done + ps + Descriptors(file, l, mods, off + 20).0;
          } else {
            assert all.0 == done + ps;
          }
          return;
        }
        assert all.0 == (done + ps) + Descriptors(file, l, mods, off + 20).0;
        done := done + ps;
        off := off + 20;
      }
    }

    /** LoadPe: headers are checked, sections mapped, imports resolved. */
    method LoadPe(file: seq<byte>, ghost l: Layout, root: Frame, base: nat,
                  ghost secs: set<Frame>,
                    ghost anon: set<UserMemorySpec.Anon>) returns (st: Status, entry: nat, ghost laid: Ram)
      requires Valid() && UserBase(vmm.shape.copied, root, base)
      requires UserMemorySpec.FramesOk(vmm.Memory(), vmm.shape, secs, anon)
      requires CheckHeaders(file).0 == Success ==> HasLayout(file, l)
      modifies this`ram, vmm`mem, vmm`shape, vmm.pmm, vmm.pmm.bitmap
      ensures Valid() && vmm.shape.copied == old(vmm.shape.copied)
      ensures CheckHeaders(file).0 != Success ==>
        st == CheckHeaders(file).0 && ram == old(ram) && vmm.Memory() == old(vmm.Memory())
      ensures CheckHeaders(file).0 == Success ==>
        st == LoadStatus(old(vmm.Memory()), old(vmm.shape), vmm.mem, root, base, laid, file, l, mods)
      ensures CheckHeaders(file).0 == Success ==>
        Kept(old(vmm.Memory()), vmm.Memory(), vmm.shape, ListPages(root, ImageList(base, l.secs, |l.secs|)))
      ensures st == Success ==>
        Loaded(vmm.Memory(), laid, ram, root, base, file, l, mods) && entry == (base + CheckHeaders(file).1) % TWO64
      ensures st == Success ==> UserMemorySpec.FramesOk(vmm.Memory(), vmm.shape, secs,
        anon + ImagePagesOf(root, base, ImageOf(file, l.secs, |l.secs|)))
      ensures UserMemorySpec.FramesOk(vmm.Memory(), vmm.shape, secs, anon)
    {
      hide Wf, ImageHere, ImageOf, HasLayout, Wanted, CheckHeaders, Apply, ImagePagesOf, UserMemorySpec.FramesOk,
        UserBase, ImageFits, Kept, ImageList, ListPages;
      laid := ram;
      entry := 0;
      st := CheckHeaders(file).0;
      if st != Success { return; }
      st := MapSections(file, l, root, base, secs, anon);
      if st != Success { return; }
      laid := ram;
      ghost var img := ImageOf(file, l.secs, |l.secs|);
      UserMemorySpec.FewerAnonymous(vmm.Memory(), vmm.shape, secs, anon + ImagePagesOf(root, base, img), anon);
      st := ResolveImports(file, l, root, base);
      if st != Success { return; }
      entry := (base + CheckHeaders(file).1) % TWO64;
    }

    /** LoadAndRegister. */
    method LoadAndRegister(name: seq<byte>, file: seq<byte>, ghost l: Layout, root: Frame, base: nat,
                           ghost secs: set<Frame>, ghost anon: set<UserMemorySpec.Anon>)
        returns (st: Status, entry: nat, ghost laid: Ram)
      requires Valid() && UserBase(vmm.shape.copied, root, base)
      requires UserMemorySpec.FramesOk(vmm.Memory(), vmm.shape, secs, anon)
      requires CheckHeaders(file).0 == Success ==> HasLayout(file, l)
      modifies this`ram, this`mods, vmm`mem, vmm`shape, vmm.pmm, vmm.pmm.bitmap
      ensures Valid() && vmm.shape.copied == old(vmm.shape.copied)
      ensures CheckHeaders(file).0 != Success ==>
        st == CheckHeaders(file).0 && ram == old(ram) && vmm.Memory() == old(vmm.Memory())
      ensures CheckHeaders(file).0 == Success ==>
        st == LoadStatus(old(vmm.Memory()), old(vmm.shape), vmm.mem, root, base, laid, file, l, old(mods))
      ensures CheckHeaders(file).0 == Success ==>
        Kept(old(vmm.Memory()), vmm.Memory(), vmm.shape, ListPages(root, ImageList(base, l.secs, |l.secs|)))
      ensures st == Success ==> Loaded(vmm.Memory(), laid, ram, root, base, file, l, old(mods))
      ensures st == Success ==> entry == (base + CheckHeaders(file).1) % TWO64
      ensures UserMemorySpec.FramesOk(vmm.Memory(), vmm.shape, secs, anon)
      ensures st != Success || |old(mods)| >= MAX_MODULES ==> mods == old(mods)
      ensures st == Success && |old(mods)| < MAX_MODULES ==>
        mods == old(mods) + [Module(if |name| >= 32 then name[..31] else name, base, file)]
    {
      hide Wf, Loaded, HasLayout, CheckHeaders, UserMemorySpec.FramesOk, ImagePagesOf, ImageOf, UserBase, LoadStatus,
        Kept, ImageList, ListPages;
      st, entry, laid := LoadPe(file, l, root, base, secs, anon);
      if st == Success { RegisterModule(name, base, file); }
    }
  }

  /** The status of LoadPe after good headers: there is no room for the image, a wanted slot is not
      mapped, or what the walk over the import tables ended with. */
  ghost function LoadStatus(vm: Vm, sh: Shape, tables: map<Frame, seq<nat>>, root: Frame, base: nat, laid: Ram,
                            file: seq<byte>, l: Layout, mods: seq<Module>): Status {
    if !ImageFits(vm, sh, root, base, l.secs) then NoResources
    else if !Apply(tables, root, base, laid, Wanted(file, l, mods).0).1 then NoResources
    else Wanted(file, l, mods).1
  }

  /** The checks of LoadPe, and the entry point's address. */
  function CheckHeaders(file: seq<byte>): (Status, nat) {
    var m := Blob(file);
    if |file| < 64 then (InvalidParameter, 0) else
    if file[0] != 0x4D || file[1] != 0x5A then (InvalidImage, 0) else
    var pe := Load(m, 60, 4);
    if pe.None? || Byte(m, pe.value).None? then (Faulted, 0) else
    if Byte(m, pe.value).value != 0x50 then (InvalidImage, 0) else
    if Byte(m, pe.value + 1).None? then (Faulted, 0) else
    if Byte(m, pe.value + 1).value != 0x45 then (InvalidImage, 0) else
    var machine, magic := Load(m, pe.value + 4, 2), Load(m, pe.value + 24, 2);
    if machine.None? then (Faulted, 0) else
    if machine.value != 0x8664 then (InvalidImage, 0) else
    if magic.None? then (Faulted, 0) else
    if magic.value != 0x020B then (InvalidImage, 0) else
    var entry, preferred := Load(m, pe.value + 40, 4), Load(m, pe.value + 48, 8);
    if entry.None? || preferred.None? then (Faulted, 0) else (Success, entry.value)
  }

  /** What a successful load leaves: the image laid out in `laid`, and then all imports stored. */
  ghost predicate Loaded(vm: Vm, laid: Ram, now: Ram, root: Frame, base: nat, file: seq<byte>, l: Layout,
                         mods: seq<Module>) {
    && HasLayout(file, l) && ImageHere(vm, laid, root, base, ImageOf(file, l.secs, |l.secs|))
    && BitsHere(vm.mem, root, base, BitsOf(l.secs, |l.secs|))
    && Wanted(file, l, mods).1 == Success && Apply(vm.mem, root, base, laid, Wanted(file, l, mods).0) == (now, true)
  }

  /** After a successful load of a well-formed image whose import slots are aligned, disjoint and apart
      from its export data, GetProcAddress in the process and FindExport on the file agree on every
      name. */
  lemma LoadedResolves(vm: Vm, laid: Ram, now: Ram, root: Frame, base: nat, file: seq<byte>, l: Layout,
                       mods: seq<Module>, s: seq<byte>)
    requires Loaded(vm, laid, now, root, base, file, l, mods) && base % 4096 == 0 && Placed(file, l)
    requires PlacesOk(Wanted(file, l, mods).0, ImageOf(file, l.secs, |l.secs|).Keys)
    requires ExportsOk(file, l, Dirty(Wanted(file, l, mods).0))
    ensures GetProcAddress(Space(vm.mem, root, now, base), base, s) == FindExport(file, base, s)
    ensures Terminated(s) ==> GetProcAddress(Space(vm.mem, root, now, base), base, s).Some?
  {
    hide Wanted, ImageHere, ImageOf, HasLayout, Placed, ExportsOk, GetProcAddress, FindExport, Apply, PlacesOk, Dirty,
      Terminated;
    WantedPatchesOk(file, l, mods, ImageOf(file, l.secs, |l.secs|).Keys);
    LoadedAgrees(vm, laid, root, base, file, l, Wanted(file, l, mods).0, s);
  }

  /** After a successful load of an image with aligned, disjoint import slots, a by-name slot read in
      the process holds what the named module exports under the name of its thunk. */
  lemma LoadedImports(vm: Vm, laid: Ram, now: Ram, root: Frame, base: nat, file: seq<byte>, l: Layout,
                      mods: seq<Module>,
                      off: nat, k: nat, mod: Module, ints: nat, slot: nat, s: seq<byte>)
    requires Loaded(vm, laid, now, root, base, file, l, mods) && base % 4096 == 0
    requires PlacesOk(Wanted(file, l, mods).0, ImageOf(file, l.secs, |l.secs|).Keys)
    requires Load(Blob(file), l.pe + 144, 4).Some? && Load(Blob(file), l.pe + 144, 4).value != 0
    requires Off(file, l, Load(Blob(file), l.pe + 144, 4).value) == Some(off)
    requires Reached(file, off, k) && Live(file, off + 20 * k)
    requires Names(file, l, mods, DescriptorAt(file, off + 20 * k).value, mod, ints)
    requires Listed(file, ints, slot) && ByName(file, l, ints, slot, s)
    ensures var va, d := FindExport(mod.file, mod.base, s), DescriptorAt(file, off + 20 * k).value;
      va.Some? && va.value != 0 && Load(Space(vm.mem, root, now, base), d.iat + 8 * slot, 8) == va
  {
    hide Wanted, ImageHere, ImageOf, HasLayout, FindExport, Apply, PlacesOk, Reached, Listed, ByName, Names, Live,
      Load, Off, OwnBytes, DescriptorAt, Sees;
    var img := ImageOf(file, l.secs, |l.secs|);
    ReadsImage(vm, laid, root, base, img);
    SlotReadsBack(Space(vm.mem, root, laid, base), img.Keys, file, l, mods, off, k, mod, ints, slot, s);
  }

  /** After a successful load, a byte of a section behind no import slot reads as the file's, up to the
      end of the last page with raw data, and as zero behind it. */
  lemma LoadedSectionByte(vm: Vm, laid: Ram, now: Ram, root: Frame, base: nat, file: seq<byte>, l: Layout,
                          mods: seq<Module>, i: nat, o: nat)
    requires Loaded(vm, laid, now, root, base, file, l, mods) && base % 4096 == 0 && Placed(file, l)
    requires PlacesOk(Wanted(file, l, mods).0, ImageOf(file, l.secs, |l.secs|).Keys) && i < |l.secs|
    requires o < PagesOf(l.secs[i].size) * 4096 && l.secs[i].rva + o !in Dirty(Wanted(file, l, mods).0)
    ensures Byte(Space(vm.mem, root, now, base), l.secs[i].rva + o) == Some(Expected(file, l.secs[i], o))
  {
    hide Wanted, ImageHere, ImageOf, HasLayout, Apply, PlacesOk, OwnBytes, Dirty, Byte, Expected, Placed, PagesOf;
    var img, ps := ImageOf(file, l.secs, |l.secs|), Wanted(file, l, mods).0;
    var m0, m := Space(vm.mem, root, laid, base), Space(vm.mem, root, now, base);
    ReadsImage(vm, laid, root, base, img);
    WantedPatchesOk(file, l, mods, img.Keys);
    AppliedReadsBack(m0, img.Keys, ps);
    forall a: nat ensures SeesByte(m, img, Dirty(ps), a) { assert SeesByte(m0, img, {}, a); }
    SectionSeen(m, file, l, Dirty(ps), i, o);
  }

  /** After a successful load of a well-formed image user mode reaches every page of every section, and
      may write to it exactly if bit 31 of the characteristics in the section's header is set; it may
      read the header page only. */
  lemma LoadedRights(vm: Vm, sh: Shape, laid: Ram, now: Ram, root: Frame, base: nat, file: seq<byte>, l: Layout,
                     mods: seq<Module>, i: nat, pg: nat)
    requires Wf(vm, sh) && AddressSpaces.PathsOpen(vm.mem, sh) && UserBase(sh.copied, root, base)
    requires Loaded(vm, laid, now, root, base, file, l, mods) && Placed(file, l)
    requires i < |l.secs| && pg < PagesOf(l.secs[i].size)
    ensures var va, flags := base + l.secs[i].rva + pg * 4096, Load(Blob(file), l.headers + 40 * i + 36, 4);
      && flags.Some? && AccessRights.Granted(vm.mem, root, va, AccessRights.USER)
      && (AccessRights.Granted(vm.mem, root, va, AccessRights.WRITE) <==> flags.value / 0x8000_0000 % 2 == 1)
    ensures AccessRights.Granted(vm.mem, root, base, AccessRights.USER)
    ensures !AccessRights.Granted(vm.mem, root, base, AccessRights.WRITE)
  {
    hide Wf, Wanted, ImageHere, ImageOf, Apply, UserBase, AddressSpaces.PathsOpen, AccessRights.Granted, BitsHere,
      BitsOf, Apart, Load, Byte, PagesOf;
    BaseAligned(sh.copied, root, base);
    BitsHold(file, l.secs, |l.secs|);
    var s, bits := l.secs[i], BitsOf(l.secs, |l.secs|);
    assert PageBits(bits, s, pg);
    assert SectionAt(Blob(file), l.headers + 40 * i) == Some(s) && SectionOk(file, s);
    SectionStart(file, s, base, pg);
    BitsAreRights(vm, sh, root, base, bits, s.rva / 4096 + pg);
    BitsAreRights(vm, sh, root, base, bits, 0);
  }

  lemma SectionStart(file: seq<byte>, s: Section, base: nat, pg: nat)
    requires base % 4096 == 0 && SectionOk(file, s) && pg < PagesOf(s.size)
    ensures (base / 4096 + (s.rva / 4096 + pg)) * 4096 == base + s.rva + pg * 4096
    ensures (base / 4096 + 0) * 4096 == base
  {
    NoPagesOfNothing(s.size);
  }

  /** The stores of the patches hit data pages only: applied to the memory that holds the tables, they
      change no translation of any address space. */
  lemma LoadedTranslations(vm: Vm, sh: Shape, secs: set<Frame>, anon: set<UserMemorySpec.Anon>, laid: Ram, now: Ram,
                           root: Frame, base: nat, file: seq<byte>, l: Layout, mods: seq<Module>, s: Frame, va: nat)
    requires Wf(vm, sh) && UserMemorySpec.FramesOk(vm, sh, secs, anon) && sh.Root(s)
    requires UserBase(sh.copied, root, base)
    requires Loaded(vm, laid, now, root, base, file, l, mods)
    requires PlacesOk(Wanted(file, l, mods).0, ImageOf(file, l.secs, |l.secs|).Keys)
    ensures var m := TableStores(vm.mem, root, base, Wanted(file, l, mods).0);
      Lookup(m, s, va) == Lookup(vm.mem, s, va) && Translate(m, s, va) == Translate(vm.mem, s, va)
  {
    hide Wf, Wanted, ImageHere, ImageOf, HasLayout, Apply, Translate, Lookup, UserMemorySpec.FramesOk, UserBase;
    BaseAligned(sh.copied, root, base);
    var ps, img := Wanted(file, l, mods).0, ImageOf(file, l.secs, |l.secs|);
    forall p, q | p in ps && q in sh.at ensures Translate(vm.mem, root, base + p.rva) / 4096 != sh.at[q] {
      ImageIsData(vm, sh, secs, anon, laid, root, base, img, p.rva);
    }
    TablesThere(vm, sh);
    StoresSpareTables(vm, vm.mem, sh, root, base, ps);
    SameTranslation(vm, TableStores(vm.mem, root, base, ps), sh, s, va);
  }

  /** Every byte of memory behind no slot is as it was laid out. */
  lemma LoadedElsewhere(vm: Vm, laid: Ram, now: Ram, root: Frame, base: nat, file: seq<byte>, l: Layout,
                        mods: seq<Module>, a: nat)
    requires Loaded(vm, laid, now, root, base, file, l, mods) && base % 4096 == 0
    requires PlacesOk(Wanted(file, l, mods).0, ImageOf(file, l.secs, |l.secs|).Keys)
    requires forall o: nat | o / 4096 in ImageOf(file, l.secs, |l.secs|) && o in Dirty(Wanted(file, l, mods).0) ::
      PhysAt(Space(vm.mem, root, laid, base), o) != a
    ensures PhysByte(now, a) == PhysByte(laid, a)
  {
    hide Wanted, ImageHere, ImageOf, HasLayout, Apply, PlacesOk, OwnBytes, Dirty, PhysAt, PhysByte, Sees;
    var img := ImageOf(file, l.secs, |l.secs|);
    ReadsImage(vm, laid, root, base, img);
    WantedPatchesOk(file, l, mods, img.Keys);
    AppliedElsewhere(Space(vm.mem, root, laid, base), img.Keys, Wanted(file, l, mods).0, a);
  }

  /** How a walk ends: the memory with the patches stored as far as they are mapped, and the status. */
  ghost predicate Outcome(tables: map<Frame, seq<nat>>, root: Frame, base: nat, was: Ram, now: Ram,
                          walk: (seq<Patch>, Status), st: Status) {
    Apply(tables, root, base, was, walk.0).0 == now
    && st == if Apply(tables, root, base, was, walk.0).1 then walk.1 else NoResources
  }

  /** One step of the thunk loop, behind what is done. */
  lemma ThunkStep(file: seq<byte>, l: Layout, mod: Module, ints: nat, iat: nat, slot: nat, done: seq<Patch>)
    ensures var now, t := Thunks(file, l, mod, ints, iat, slot), TargetOf(file, l, mod, ints, slot);
      && (t.Bad? ==> done + now.0 == done && now.1 == t.st)
      && (t.End? ==> done + now.0 == done && now.1 == Success)
      && (t.Skip? ==> now == Thunks(file, l, mod, ints, iat, slot + 1))
      && (t.Resolved? ==> now.1 == Thunks(file, l, mod, ints, iat, slot + 1).1
                          && done + now.0 == done + [Patch(iat + 8 * slot, t.va)] + Thunks(file, l, mod, ints, iat,
                              slot + 1).0)
  {
    hide TargetOf;
  }

  lemma NoPatches(tables: map<Frame, seq<nat>>, root: Frame, base: nat, ram: Ram)
    ensures Apply(tables, root, base, ram, []) == (ram, true)
  {}

  lemma {:induction false} ApplyJoins(tables: map<Frame, seq<nat>>, root: Frame, base: nat, ram: Ram, ps: seq<Patch>,
                                      qs: seq<Patch>)
    ensures var (mid, ok) := Apply(tables, root, base, ram, ps);
      Apply(tables, root, base, ram, ps + qs) == if ok then Apply(tables, root, base, mid, qs) else (mid, false)
    decreases |ps|
  {
    hide Translate, Store;
    if ps == [] {
      assert ps + qs == qs;
    } else {
      assert (ps + qs)[0] == ps[0] && (ps + qs)[1..] == ps[1..] + qs;
      var phys := Translate(tables, root, base + ps[0].rva);
      if phys != 0 { ApplyJoins(tables, root, base, Store(ram, phys, ps[0].value, 8), ps[1..], qs); }
    }
  }

  lemma ApplyOneMore(tables: map<Frame, seq<nat>>, root: Frame, base: nat, ram: Ram, done: seq<Patch>, p: Patch)
    ensures var (mid, ok) := Apply(tables, root, base, ram, done); var phys := Translate(tables, root, base + p.rva);
      ok ==> Apply(tables, root, base, ram, done + [p]) == if phys == 0 then (mid,
          false) else (Store(mid, phys, p.value, 8), true)
  {
    hide Translate, Store;
    ApplyJoins(tables, root, base, ram, done, [p]);
  }

  lemma ApplyStops(tables: map<Frame, seq<nat>>, root: Frame, base: nat, ram: Ram, ps: seq<Patch>, rest: seq<Patch>)
    requires !Apply(tables, root, base, ram, ps).1
    ensures Apply(tables, root, base, ram, ps + rest) == Apply(tables, root, base, ram, ps)
  {
    ApplyJoins(tables, root, base, ram, ps, rest);
  }

  // ---- The pages that an image needs -----------------------------------------------------------

  /** The first `n` pages of a section, as page numbers of the space. */
  ghost function SectionList(base: nat, s: Section, n: nat): seq<nat> {
    seq(n, i => base / 4096 + (s.rva / 4096 + i))
  }

  ghost function SectionRest(base: nat, s: Section, from: nat, n: nat): seq<nat>
    requires from <= n
  {
    seq(n - from, i => base / 4096 + (s.rva / 4096 + from + i))
  }

  /** The pages that MapSections takes and maps for the header and the first `k` sections, in order. */
  ghost function ImageList(base: nat, secs: seq<Section>, k: nat): seq<nat>
    requires k <= |secs|
  {
    if k == 0 then [base / 4096] else
    var here := if Skipped(secs[k - 1]) then [] else SectionList(base, secs[k - 1], PageCount(secs[k - 1].size));
    ImageList(base, secs, k - 1) + here
  }

  /** Free memory covers the pages of an image and the tables they need. */
  ghost predicate ImageFits(vm: Vm, sh: Shape, root: Frame, base: nat, secs: seq<Section>) {
    var ps := ImageList(base, secs, |secs|);
    Room(vm, sh, root, ps, |ps|)
  }

  lemma SectionListStart(base: nat, s: Section, done: seq<nat>)
    ensures done + SectionList(base, s, 0) == done
  {}

  lemma SectionListStep(base: nat, s: Section, i: nat, n: nat, done: seq<nat>)
    requires i < n
    ensures done + SectionList(base, s, i + 1) == done + SectionList(base, s, i) + [base / 4096 + (s.rva / 4096 + i)]
    ensures done + SectionList(base, s, n) == done + SectionList(base, s, i + 1) + SectionRest(base, s, i + 1, n)
  {}

  lemma ImageListStep(base: nat, secs: seq<Section>, k: nat)
    requires k < |secs|
    ensures ImageList(base, secs, 0) == [base / 4096]
    ensures ImageList(base, secs, k + 1) == ImageList(base, secs, k)
      + if Skipped(secs[k]) then [] else SectionList(base, secs[k], PageCount(secs[k].size))
    ensures Skipped(secs[k]) ==> ImageList(base, secs, k + 1) == ImageList(base, secs, k)
  {
    assert ImageList(base, secs, k) + [] == ImageList(base, secs, k);
  }

  lemma {:induction false} ImageRest(base: nat, secs: seq<Section>, k: nat) returns (rest: seq<nat>)
    requires k <= |secs|
    ensures ImageList(base, secs, |secs|) == ImageList(base, secs, k) + rest
    decreases |secs| - k
  {
    hide ImageList, SectionList, PageCount, Skipped;
    rest := [];
    if k == |secs| {
      assert ImageList(base, secs, k) + [] == ImageList(base, secs, k);
    } else {
      ImageListStep(base, secs, k);
      var here := if Skipped(secs[k]) then [] else SectionList(base, secs[k], PageCount(secs[k].size));
      var later := ImageRest(base, secs, k + 1);
      Joined(ImageList(base, secs, k), here, later);
      rest := here + later;
    }
  }

  lemma Joined(a: seq<nat>, b: seq<nat>, c: seq<nat>)
    ensures (a + b) + c == a + (b + c)
  {}

  /** If an early part of the image does not fit, the image does not. */
  lemma ImageStuck(v0: Vm, s0: Shape, vm: Vm, sh: Shape, root: Frame, base: nat, secs: seq<Section>, k: nat)
    requires k <= |secs| && Stuck(v0, s0, vm, sh, root, ImageList(base, secs, k))
    ensures !ImageFits(v0, s0, root, base, secs)
    ensures Kept(v0, vm, sh, ListPages(root, ImageList(base, secs, |secs|)))
  {
    hide ImageList, Room, Kept, ListPages;
    var rest := ImageRest(base, secs, k);
    StuckLonger(v0, s0, vm, sh, root, ImageList(base, secs, k), rest);
  }

  lemma ImageMapped(v0: Vm, s0: Shape, vm: Vm, sh: Shape, root: Frame, base: nat, secs: seq<Section>)
    requires Mapped(v0, s0, vm, sh, root, ImageList(base, secs, |secs|))
    ensures ImageFits(v0, s0, root, base, secs)
    ensures Kept(v0, vm, sh, ListPages(root, ImageList(base, secs, |secs|)))
  {
    hide ImageList, Room, Kept, ListPages, Spent;
    MappedFitted(v0, s0, vm, sh, root, ImageList(base, secs, |secs|));
  }

  lemma HeaderCharged(v0: Vm, s0: Shape, vm: Vm, sh: Shape, root: Frame, base: nat, secs: seq<Section>, ok: bool)
    requires Charged(v0, s0, vm, sh, root, base / 4096, 1, ok) && sh.k == s0.k && sh.copied == s0.copied
    ensures if ok then Mapped(v0, s0, vm, sh, root, ImageList(base, secs, 0))
            else Stuck(v0, s0, vm, sh, root, ImageList(base, secs, 0))
  {
    hide Charged, Mapped, Stuck;
    NothingMapped(v0, s0, root);
    MappedNext(v0, s0, v0, s0, vm, sh, root, [], base / 4096, ok);
    assert [] + [base / 4096] == [base / 4096];
  }

  lemma BaseAligned(c: map<Frame, set<nat>>, root: Frame, base: nat)
    requires UserBase(c, root, base)
    ensures base % 4096 == 0 && root in c
  {
    hide UserMemorySpec.UserPage;
    assert UserMemorySpec.UserPage(c, root, base / 4096);
    UserMemorySpec.UserRoot(c, root, base / 4096);
  }

  lemma NothingFree(v0: Vm, vm: Vm, sh: Shape, root: Frame, p: nat)
    requires |FreeSet(v0.used)| == 0 && vm.mem == v0.mem
    ensures Charged(v0, sh, vm, sh, root, p, 1, false)
  {
    hide FreeSet, Lookup, PathPlaces;
  }

  lemma PageIsSmall(vm: Vm, sh: Shape, secs: set<Frame>, anon: set<UserMemorySpec.Anon>, r: Frame, p: nat)
    requires UserMemorySpec.FramesOk(vm, sh, secs, anon) && UserMemorySpec.UserPage(sh.copied, r, p)
    ensures UserMemorySpec.SmallPage(vm.mem, r, p)
  {
    hide UserMemorySpec.UserPage, UserMemorySpec.FrameAt, UserMemorySpec.DataFrame;
    assert UserMemorySpec.UserPageOk(vm, sh, r, p);
  }

  /** Giving a page back does not change what failed, or which pages look as before. */
  lemma ChargedAnyway(v0: Vm, s0: Shape, vm: Vm, vn: Vm, sh: Shape, r: Frame, p: nat)
    requires Charged(v0, s0, vm, sh, r, p, 1, false) && vn.mem == vm.mem
    ensures Charged(v0, s0, vn, sh, r, p, 1, false)
  {
    hide Lookup, OneFits;
  }

  lemma PageCountBound(size: nat)
    ensures PageCount(size) <= 0x10_0000
  {}

  lemma PageNumber(base: nat, rva: nat, pg: nat)
    requires base % 4096 == 0 && rva < TWO32 && pg < 0x10_0000
    ensures (base + rva + pg * 4096) / 4096 == base / 4096 + (rva / 4096 + pg) && rva / 4096 + pg < 0x20_0000
  {}

  lemma HeaderThere(m: Memory, headers: nat, secs: seq<Section>, k: nat)
    requires HasSections(m, headers, secs) && k < |secs|
    ensures SectionAt(m, headers + 40 * k) == Some(secs[k]) && secs[k].rva < TWO32
  {
    hide Load;
    LoadIsSmall(m, headers + 40 * k + 12, 4);
  }

  /** A mapped frame: the image has one more page, and so have the anonymous pages. */
  lemma FrameMapped(vm: Vm, vn: Vm, sh: Shape, sn: Shape, ram: Ram, root: Frame, base: nat, va: nat, f: Frame,
                    page: seq<byte>,
                    flags: nat, p: nat, img: Image, secs: set<Frame>, anon: set<UserMemorySpec.Anon>)
    requires Wf(vm, sh) && root in sh.copied && FrameOf(flags) == 0 && f < MAX_PAGES && f !in secs
    requires va / 4096 == base / 4096 + p && p < 0x20_0000 && UserMemorySpec.UserPage(sh.copied, root, va / 4096)
    requires ImageHere(vm, ram, root, base, img) && FrameReady(vm, sh, ram, root, base, img, f, page)
    requires UserMemorySpec.FramesOk(vm, sh, secs, anon + ImagePagesOf(root, base, img))
    requires UserMemorySpec.DataFrame(vm, sh, f)
    requires forall s, q: nat | UserMemorySpec.UserPage(sh.copied, s, q) ::
      UserMemorySpec.FrameAt(vm.mem, s, q) != Some(f)
    requires UserMemorySpec.PageMapped(vm, vn, sh, sn, root, va, f * 4096, flags, true)
    requires FreeSet(vn.used) <= FreeSet(vm.used)
    ensures ImageHere(vn, ram, root, base, img[p := page])
    ensures UserMemorySpec.FramesOk(vn, sn, secs, anon + ImagePagesOf(root, base, img[p := page]))
  {
    hide Wf, ImageHere, FrameReady, LeafChanged, LeafEntry, FrameOf, FreeSet, UserMemorySpec.FramesOk,
      UserMemorySpec.DataFrame, UserMemorySpec.FrameAt, ImagePagesOf;
    var all := anon + ImagePagesOf(root, base, img);
    UserMemorySpec.AnonPageMapped(vm, vn, sh, sn, secs, all, root, va, f, flags, true);
    AddsPage(vm, vn, sh, sn, ram, root, base, img, va, p, f, flags, page);
    OnePageMore(root, base, img, p, page);
    assert all + {(root, va / 4096)} == anon + ImagePagesOf(root, base, img[p := page]);
  }

  /** A frame that could not be mapped goes back. */
  lemma FrameReturned(vm: Vm, vn: Vm, sh: Shape, sn: Shape, ram: Ram, root: Frame, base: nat, va: nat, f: Frame,
                      page: seq<byte>,
                      flags: nat, img: Image, secs: set<Frame>, anon: set<UserMemorySpec.Anon>)
    requires Wf(vm, sh) && Wf(vn, sn) && root in sh.copied && FrameOf(flags) == 0 && f < MAX_PAGES && f !in secs
    requires UserMemorySpec.UserPage(sh.copied, root, va / 4096) && FrameReady(vm, sh, ram, root, base, img, f, page)
    requires UserMemorySpec.FramesOk(vm, sh, secs, anon + ImagePagesOf(root, base, img))
    requires UserMemorySpec.DataFrame(vm, sh, f)
    requires forall s, q: nat | UserMemorySpec.UserPage(sh.copied, s, q) ::
      UserMemorySpec.FrameAt(vm.mem, s, q) != Some(f)
    requires UserMemorySpec.PageMapped(vm, vn, sh, sn, root, va, f * 4096, flags, false)
    ensures Wf(vn.(used := Free(vn.used, f * 4096)), sn)
    ensures UserMemorySpec.FramesOk(vn.(used := Free(vn.used, f * 4096)), sn, secs, anon)
  {
    hide Wf, FrameReady, LeafChanged, SameViews, LeafEntry, FrameOf, FreeSet, Free, UserMemorySpec.FramesOk,
      UserMemorySpec.DataFrame, UserMemorySpec.FrameAt, ImagePagesOf;
    var all := anon + ImagePagesOf(root, base, img);
    UserMemorySpec.AnonPageMapped(vm, vn, sh, sn, secs, all, root, va, f, flags, false);
    ReturnsFrame(vm, vn, sh, sn, ram, root, base, img, f, page);
    UserMemorySpec.FewerAnonymous(vn, sn, secs, all, anon);
    PageBack(vn, sn, secs, anon, f);
  }

  lemma GrownSize(vm: Vm, sh: Shape, vn: Vm, sn: Shape)
    requires Wf(vm, sh) && Wf(vn, sn) && Grown(vm, vn, sh, sn)
    ensures |vn.used| == |vm.used| && FreeSet(vn.used) <= FreeSet(vm.used)
  {
    hide SlotOk, TableOk, RootOk, FreeSet;
  }
}
