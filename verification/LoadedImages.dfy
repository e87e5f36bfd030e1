/** Images in address spaces: which frames hold their pages, and that reading through the page
    tables reads those pages. */
module LoadedImages {
  import opened Wrappers
  import opened ByteBuffers
  import opened PmmSpec
  import opened PageTables
  import AddressSpaces
  import AccessRights
  import UserMemorySpec
  import opened PeFormat
  import opened PeMapping
  import opened PeImports

  /** The frame behind page `p` of an image at `base`. */
  function Behind(m: map<Frame, seq<nat>>, root: Frame, base: nat, p: nat): Option<Frame> {
    UserMemorySpec.FrameAt(m, root, base / 4096 + p)
  }

  ghost predicate PageHere(vm: Vm, ram: Ram, root: Frame, base: nat, p: nat, bytes: seq<byte>) {
    var f := Behind(vm.mem, root, base, p);
    && f.Some? && 0 < f.value < |vm.used| && vm.used[f.value]
    && f.value in ram && ram[f.value] == bytes && |bytes| == 4096
  }

  /** Every page of the image is mapped to a frame of its own that holds it. */
  ghost predicate ImageHere(vm: Vm, ram: Ram, root: Frame, base: nat, img: Image) {
    && (forall p | p in img :: p < 0x20_0000 && PageHere(vm, ram, root, base, p, img[p]))
    && (forall p, q | p in img && q in img && Behind(vm.mem, root, base, p) == Behind(vm.mem, root, base, q) :: p == q)
  }

  /** The entry of page `p` of an image at `base` has these low bits. */
  ghost predicate PageHas(m: map<Frame, seq<nat>>, root: Frame, base: nat, p: nat, low: nat) {
    var va := (base / 4096 + p) * 4096;
    Lookup(m, root, va).Page4K? && GetPteInto(m, root, va) % 8 == low
  }

  ghost predicate BitsHere(m: map<Frame, seq<nat>>, root: Frame, base: nat, bits: Bits) {
    forall p | p in bits :: p < 0x20_0000 && PageHas(m, root, base, p, bits[p])
  }

  lemma EntryHas(m: map<Frame, seq<nat>>, root: Frame, base: nat, va: nat, p: nat, f: nat, low: nat)
    requires va / 4096 == base / 4096 + p && (low == READ_ONLY || low == READ_WRITE)
    requires GetPteInto(m, root, va) == f * 4096 + low + 1 - low % 2
    ensures PageHas(m, root, base, p, low)
  {
    var vb := (base / 4096 + p) * 4096;
    LowBits(f, low);
    SameRawEntry(m, root, va);
    hide Lookup, GetPteInto;
    GetPteIntoAgrees(m, root, vb);
  }

  lemma LowBits(f: nat, low: nat)
    requires low == READ_ONLY || low == READ_WRITE
    ensures (f * 4096 + low + 1 - low % 2) % 8 == low && Present(f * 4096 + low + 1 - low % 2)
  {
    hide Present;
    assert low % 2 == 1 && f * 4096 + low == 8 * (f * 512) + low;
    AccessRights.LowThree(f * 4096 + low, f * 512, low);
  }

  lemma SameRawEntry(m: map<Frame, seq<nat>>, root: Frame, va: nat)
    ensures GetPteInto(m, root, va / 4096 * 4096) == GetPteInto(m, root, va)
  {
    var vb := va / 4096 * 4096;
    UserMemorySpec.AtPageStart(m, Shape(root, map[], map[]), root, va);
    assert Dir(vb)[0] == Dir(va)[0] && Dir(vb)[1] == Dir(va)[1] && Dir(vb)[2] == Dir(va)[2];
    hide Pml4Idx, PdptIdx, PdIdx, PtIdx, Present, Huge, FrameOf, Entry;
  }

  ghost predicate PageKept(m: map<Frame, seq<nat>>, n: map<Frame, seq<nat>>, root: Frame, base: nat, q: nat) {
    Lookup(n, root, (base / 4096 + q) * 4096) == Lookup(m, root, (base / 4096 + q) * 4096)
  }

  /** A page more, when the others keep their views. */
  lemma BitsNext(m: map<Frame, seq<nat>>, n: map<Frame, seq<nat>>, root: Frame, base: nat, bits: Bits, p: nat, low: nat)
    requires BitsHere(m, root, base, bits) && p < 0x20_0000 && PageHas(n, root, base, p, low)
    requires forall q: nat | q < 0x20_0000 && q != p :: PageKept(m, n, root, base, q)
    ensures BitsHere(n, root, base, bits[p := low])
  {
    hide Lookup, GetPteInto;
    forall q | q in bits && q != p ensures PageHas(n, root, base, q, bits[q]) {
      assert PageKept(m, n, root, base, q);
      assert PageHas(m, root, base, q, bits[q]);
      GetPteIntoAgrees(m, root, (base / 4096 + q) * 4096);
      GetPteIntoAgrees(n, root, (base / 4096 + q) * 4096);
    }
  }

  /** The rights of a page in a private place are those of its bits. */
  lemma BitsAreRights(vm: Vm, sh: Shape, root: Frame, base: nat, bits: Bits, p: nat)
    requires Wf(vm, sh) && AddressSpaces.PathsOpen(vm.mem, sh) && root in sh.copied && UserBase(sh.copied, root, base)
    requires BitsHere(vm.mem, root, base, bits) && p in bits && (bits[p] == READ_ONLY || bits[p] == READ_WRITE)
    ensures var va := (base / 4096 + p) * 4096;
      && AccessRights.Granted(vm.mem, root, va, AccessRights.USER)
      && (AccessRights.Granted(vm.mem, root, va, AccessRights.WRITE) <==> bits[p] == READ_WRITE)
  {
    var va := (base / 4096 + p) * 4096;
    assert PageHas(vm.mem, root, base, p, bits[p]);
    assert UserMemorySpec.UserPage(sh.copied, root, base / 4096 + p);
    assert base / 4096 + p < 0x10_0000_0000;
    BitsMean(GetPteInto(vm.mem, root, va));
    hide Wf, AddressSpaces.PathsOpen, Lookup, GetPteInto, AccessRights.Granted, AccessRights.Has,
      UserMemorySpec.UserPage, Dir, UserBase, BitsHere;
    UserMemorySpec.UserPageIsPrivate(vm, sh, root, base / 4096 + p);
    AccessRights.PrivateRights(vm, sh, root, va, AccessRights.USER);
    AccessRights.PrivateRights(vm, sh, root, va, AccessRights.WRITE);
  }

  lemma BitsMean(e: nat)
    ensures e % 8 == READ_ONLY ==> AccessRights.Has(e, AccessRights.USER) && !AccessRights.Has(e, AccessRights.WRITE)
    ensures e % 8 == READ_WRITE ==> AccessRights.Has(e, AccessRights.USER) && AccessRights.Has(e, AccessRights.WRITE)
  {}

  /** A frame for the next page: allocated, no table, behind no page of the image. */
  ghost predicate FrameReady(vm: Vm, sh: Shape, ram: Ram, root: Frame, base: nat, img: Image, f: Frame,
                             bytes: seq<byte>) {
    && 0 < f < |vm.used| && vm.used[f] && f in ram && ram[f] == bytes && |bytes| == 4096
    && (forall p | p in img :: Behind(vm.mem, root, base, p) != Some(f))
    && (forall q | q in sh.at :: sh.at[q] != f)
  }

  lemma TakesFrame(vm: Vm, sh: Shape, ram: Ram, root: Frame, base: nat, img: Image, bytes: seq<byte>)
    requires Wf(vm, sh) && ImageHere(vm, ram, root, base, img) && |bytes| == 4096
    ensures var (used, phys) := Alloc(vm.used); var now := Vm(vm.mem, used);
      && Wf(now, sh)
      && (phys == 0 ==> ImageHere(now, ram, root, base, img))
      && (phys != 0 ==>
          phys % 4096 == 0 && phys / 4096 < MAX_PAGES && ImageHere(now, ram[phys / 4096 := bytes], root, base, img)
                        && FrameReady(now, sh, ram[phys / 4096 := bytes], root, base, img, phys / 4096, bytes))
  {
    WfRoot(vm, sh, sh.k);
    AllocFailsIffExhausted(vm.used);
    forall q | q in sh.at ensures sh.at[q] < |vm.used| && vm.used[sh.at[q]] { WfTable(vm, sh, q); }
    hide Behind, TableOk, SlotOk, RootOk;
    var f := FirstFree(vm.used);
    if f < |vm.used| {
      assert Alloc(vm.used) == (vm.used[f := true], f * 4096);
      UserMemorySpec.UsedGrows(vm, sh, f);
      var now := Vm(vm.mem, vm.used[f := true]);
      forall p | p in img
        ensures PageHere(now, ram[f := bytes], root, base, p, img[p]) && Behind(vm.mem, root, base, p) != Some(f)
      {
        assert PageHere(vm, ram, root, base, p, img[p]);
      }
    }
  }

  /** Different pages of an image are different pages of the address space. */
  lemma ImagePages(base: nat, va: nat, p: nat, q: nat)
    requires p < 0x20_0000 && q < 0x20_0000 && va / 4096 == base / 4096 + p
    ensures SamePage(va, (base / 4096 + q) * 4096) <==> p == q
  {
    SamePageIff(va, (base / 4096 + q) * 4096);
    var b := base / 4096;
    assert (b + q) * 4096 / 4096 == b + q;
    if p != q {
      hide SamePage;
      assert (b + p) % 0x10_0000_0000 != (b + q) % 0x10_0000_0000 by { ModApart(b + p, b + q); }
    }
  }

  lemma ModApart(a: nat, b: nat)
    requires a != b && -0x10_0000_0000 < a - b < 0x10_0000_0000
    ensures a % 0x10_0000_0000 != b % 0x10_0000_0000
  {}

  lemma BehindAfter(vm: Vm, vn: Vm, sh: Shape, root: Frame, base: nat, va: nat, p: nat, f: Frame, flags: nat, q: nat)
    requires sh.Root(root) && f < MAX_PAGES && FrameOf(flags) == 0 && p < 0x20_0000 && q < 0x20_0000
    requires va / 4096 == base / 4096 + p && LeafChanged(vm, vn, sh, root, va, LeafEntry(f * 4096, flags))
    ensures Behind(vn.mem, root, base, q) == if q == p then Some(f) else Behind(vm.mem, root, base, q)
  {
    hide Lookup, LeafEntry, FrameOf, Present, Dir, PtIdx, SamePage;
    ImagePages(base, va, p, q);
    LeafEntryFields(f * 4096, flags);
    UserMemorySpec.FrameOfPage(f);
  }

  /** Mapping a ready frame adds its page to the image. */
  lemma AddsPage(vm: Vm, vn: Vm, sh: Shape, sn: Shape, ram: Ram, root: Frame, base: nat, img: Image, va: nat, p: nat,
                 f: Frame, flags: nat, bytes: seq<byte>)
    requires sn.Root(root) && f < MAX_PAGES && FrameOf(flags) == 0 && p < 0x20_0000
    requires ImageHere(vm, ram, root, base, img) && FrameReady(vm, sh, ram, root, base, img, f, bytes)
    requires va / 4096 == base / 4096 + p && LeafChanged(vm, vn, sn, root, va, LeafEntry(f * 4096, flags))
    requires |vn.used| == |vm.used| && FreeSet(vn.used) <= FreeSet(vm.used)
    ensures ImageHere(vn, ram, root, base, img[p := bytes])
  {
    hide Behind, LeafChanged, LeafEntry, FrameOf;
    var now := img[p := bytes];
    forall q | q in now
      ensures q < 0x20_0000 && PageHere(vn, ram, root, base, q, now[q])
      ensures Behind(vn.mem, root, base, q) == if q == p then Some(f) else Behind(vm.mem, root, base, q)
    {
      BehindAfter(vm, vn, sn, root, base, va, p, f, flags, q);
      if q != p { assert PageHere(vm, ram, root, base, q, img[q]); }
      UserMemorySpec.UsedKept(vm, vn);
    }
  }

  /** If mapping failed, nothing of the image has changed; its frame can go back. */
  lemma ReturnsFrame(vm: Vm, vn: Vm, sh: Shape, sn: Shape, ram: Ram, root: Frame, base: nat, img: Image, f: Frame,
                     bytes: seq<byte>)
    requires Wf(vn, sn) && f < MAX_PAGES && Grown(vm, vn, sh, sn) && FrameReady(vm, sh, ram, root, base, img, f, bytes)
    ensures Wf(vn.(used := Free(vn.used, f * 4096)), sn)
  {
    hide SlotOk, RootOk, FreeSet;
    var now := vn.(used := Free(vn.used, f * 4096));
    assert f * 4096 / 4096 == f;
    NotFree(vm.used, f);
    if vn.used[f] {
      WfRoot(vn, sn, sn.k);
      forall q | q in sn.at ensures TableOk(now, sn, q) {
        WfTable(vn, sn, q);
        assert sn.at[q] != f;
      }
      hide TableOk;
      forall q, i: nat | q in sn.at && |q.path| < 3 && i < 512 ensures SlotOk(now, sn, q, i) {
        SameSlot(vn, now, sn, q, i);
      }
    }
  }

  /** Going back, as far as the user pages are concerned. */
  lemma PageBack(vm: Vm, sh: Shape, secs: set<Frame>, anon: set<UserMemorySpec.Anon>, f: Frame)
    requires UserMemorySpec.FramesOk(vm, sh, secs, anon) && f !in secs
    requires forall s, q: nat | UserMemorySpec.UserPage(sh.copied, s, q) ::
      UserMemorySpec.FrameAt(vm.mem, s, q) != Some(f)
    ensures UserMemorySpec.FramesOk(vm.(used := Free(vm.used, f * 4096)), sh, secs, anon)
  {
    hide UserMemorySpec.FramesOk, UserMemorySpec.FrameAt, UserMemorySpec.UserPage;
    assert f * 4096 / 4096 == f;
    if f < |vm.used| && vm.used[f] { UserMemorySpec.PageReturned(vm, sh, secs, anon, f); }
  }

  lemma NotFree(used: seq<bool>, f: nat)
    requires f < |used| && used[f]
    ensures f !in FreeSet(used)
  {}

  lemma SameSlot(vm: Vm, vn: Vm, sh: Shape, p: Pos, i: nat)
    requires Wf(vm, sh) && vn.mem == vm.mem && p in sh.at && |p.path| < 3 && i < 512
    ensures SlotOk(vn, sh, p, i)
  {
    WfSlot(vm, sh, p, i);
    hide Wf;
  }

  // ---- Image pages are data pages ---------------------------------------------------------

  /** A base with room for every 32-bit address, and a page behind it, in private pages of space `root`. */
  ghost predicate UserBase(c: map<Frame, set<nat>>, root: Frame, base: nat) {
    && base % 4096 == 0
    && forall q: nat | base / 4096 <= q < base / 4096 + 0x20_0000 :: UserMemorySpec.UserPage(c, root, q)
  }

  /** Every aligned base between 4 GB and 504 GB is one. */
  lemma LowBase(c: map<Frame, set<nat>>, root: Frame, base: nat)
    requires root in c && base % 4096 == 0 && TWO32 <= base && base + 2 * TWO32 <= 0x80_0000_0000
    ensures UserBase(c, root, base)
  {
    forall q: nat | base / 4096 <= q < base / 4096 + 0x20_0000 ensures UserMemorySpec.UserPage(c, root, q) {
      assert 0x1_0000_0000 <= q * 4096 < 0x80_0000_0000;
    }
  }

  /** The pages of an image as pages of a space. */
  ghost function ImagePagesOf(root: Frame, base: nat, img: Image): set<UserMemorySpec.Anon> {
    set p | p in img :: (root, base / 4096 + p)
  }

  lemma OnePageMore(root: Frame, base: nat, img: Image, p: nat, bytes: seq<byte>)
    ensures ImagePagesOf(root, base, img[p := bytes]) == ImagePagesOf(root, base, img) + {(root, base / 4096 + p)}
    ensures ImagePagesOf(root, base, map[]) == {}
  {
    var was, now := ImagePagesOf(root, base, img), ImagePagesOf(root, base, img[p := bytes]);
    forall a | a in now ensures a in was + {(root, base / 4096 + p)} {
      var q :| q in img[p := bytes] && a == (root, base / 4096 + q);
    }
    forall a | a in was + {(root, base / 4096 + p)} ensures a in now {
      if a in was {
        var q :| q in img && a == (root, base / 4096 + q);
        assert q in img[p := bytes];
      } else {
        assert p in img[p := bytes];
      }
    }
  }

  /** What the stores of the patches do to the memory that holds tables, where an aligned store
      replaces one entry. */
  function TableStores(m: map<Frame, seq<nat>>, root: Frame, base: nat, ps: seq<Patch>): map<Frame, seq<nat>>
    decreases |ps|
  {
    if ps == [] then m else
    var phys := Translate(m, root, base + ps[0].rva);
    if phys == 0 then m else TableStores(SetEntry(m, phys / 4096, phys % 4096 / 8, ps[0].value), root, base, ps[1..])
  }

  /** Two memories that have the same tables. */
  ghost predicate TablesAgree(vm: Vm, m: map<Frame, seq<nat>>, sh: Shape) {
    forall p | p in sh.at :: sh.at[p] in m && sh.at[p] in vm.mem && m[sh.at[p]] == vm.mem[sh.at[p]]
  }

  lemma TablesThere(vm: Vm, sh: Shape)
    requires Wf(vm, sh)
    ensures TablesAgree(vm, vm.mem, sh)
  {
    forall p | p in sh.at ensures sh.at[p] in vm.mem { WfTable(vm, sh, p); }
  }

  lemma SameTranslation(vm: Vm, m: map<Frame, seq<nat>>, sh: Shape, r: Frame, va: nat)
    requires Wf(vm, sh) && sh.Root(r) && TablesAgree(vm, m, sh)
    ensures Lookup(m, r, va) == Lookup(vm.mem, r, va) && Translate(m, r, va) == Translate(vm.mem, r, va)
  {
    hide Wf, Lookup;
    AddressSpaces.SameTables(vm, vm.(mem := m), sh, r, va);
  }

  lemma {:induction false} StoresSpareTables(vm: Vm, m: map<Frame, seq<nat>>, sh: Shape, root: Frame, base: nat,
                                             ps: seq<Patch>)
    requires Wf(vm, sh) && sh.Root(root) && TablesAgree(vm, m, sh)
    requires forall p, q | p in ps && q in sh.at :: Translate(vm.mem, root, base + p.rva) / 4096 != sh.at[q]
    ensures TablesAgree(vm, TableStores(m, root, base, ps), sh)
    decreases |ps|
  {
    hide Wf, Translate;
    if ps != [] {
      SameTranslation(vm, m, sh, root, base + ps[0].rva);
      var phys := Translate(vm.mem, root, base + ps[0].rva);
      assert ps[0] in ps;
      forall p | p in ps[1..] ensures p in ps {}
      if phys != 0 {
        StoresSpareTables(vm, SetEntry(m, phys / 4096, phys % 4096 / 8, ps[0].value), sh, root, base, ps[1..]);
      }
    }
  }

  /** Every frame behind a page of an image holds data: no store to the image hits a table. */
  lemma ImageIsData(vm: Vm, sh: Shape, secs: set<Frame>, anon: set<UserMemorySpec.Anon>, ram: Ram, root: Frame,
                    base: nat, img: Image, o: nat)
    requires UserMemorySpec.FramesOk(vm, sh, secs, anon) && UserBase(sh.copied, root, base)
    requires ImageHere(vm, ram, root, base, img) && o / 4096 in img
    ensures UserMemorySpec.DataFrame(vm, sh, PhysAt(Space(vm.mem, root, ram, base), o) / 4096)
  {
    hide PhysAt, UserMemorySpec.DataFrame, UserMemorySpec.SmallPage, UserMemorySpec.FrameAt, UserMemorySpec.UserPage;
    var p := o / 4096;
    assert PageHere(vm, ram, root, base, p, img[p]);
    assert UserMemorySpec.UserPage(sh.copied, root, base / 4096 + p);
    assert UserMemorySpec.UserPageOk(vm, sh, root, base / 4096 + p);
    ByteAddress(vm, ram, root, base, img, o);
    FramePart(Behind(vm.mem, root, base, p).value, o % 4096);
  }

  // ---- Reading an image -------------------------------------------------------------------

  /** The physical address of a byte of a page. */
  lemma FrameByte(m: map<Frame, seq<nat>>, root: Frame, n: nat, f: Frame, k: nat)
    requires UserMemorySpec.FrameAt(m, root, n) == Some(f) && k < 4096
    ensures Translate(m, root, n * 4096 + k) == f * 4096 + k
  {
    hide Lookup, FrameOf;
    UserMemorySpec.TranslateWithinPage(m, root, n * 4096, k);
    assert n * 4096 % 4096 == 0;
  }

  lemma FramePart(f: Frame, k: nat)
    requires k < 4096
    ensures (f * 4096 + k) / 4096 == f && (f * 4096 + k) % 4096 == k
  {}

  lemma ByteAddress(vm: Vm, ram: Ram, root: Frame, base: nat, img: Image, o: nat)
    requires ImageHere(vm, ram, root, base, img) && base % 4096 == 0 && o / 4096 in img
    ensures var m := Space(vm.mem, root, ram, base);
      && Behind(vm.mem, root, base, o / 4096).Some?
      && PhysAt(m, o) == Behind(vm.mem, root, base, o / 4096).value * 4096 + o % 4096 > 0
      && PhysByte(ram, PhysAt(m, o)) == Some(img[o / 4096][o % 4096])
      && |img[o / 4096]| == 4096
  {
    hide Translate, Behind, ImageHere, PhysByte;
    var p := o / 4096;
    PageOf(vm, ram, root, base, img, p);
    var f := Behind(vm.mem, root, base, p).value;
    PageAndRest(base, o);
    FrameByte(vm.mem, root, base / 4096 + p, f, o % 4096);
    PageByte(ram, f, img[p], o % 4096);
  }

  lemma PageOf(vm: Vm, ram: Ram, root: Frame, base: nat, img: Image, p: nat)
    requires ImageHere(vm, ram, root, base, img) && p in img
    ensures var f := Behind(vm.mem, root, base, p);
      && f.Some? && f.value > 0 && f.value in ram && ram[f.value] == img[p] && |img[p]| == 4096
      && UserMemorySpec.FrameAt(vm.mem, root, base / 4096 + p) == f
  {
    assert PageHere(vm, ram, root, base, p, img[p]);
    hide UserMemorySpec.FrameAt;
  }

  lemma PageAndRest(base: nat, o: nat)
    requires base % 4096 == 0
    ensures base + o == (base / 4096 + o / 4096) * 4096 + o % 4096
  {}

  lemma PageByte(ram: Ram, f: Frame, bytes: seq<byte>, k: nat)
    requires f in ram && ram[f] == bytes && |bytes| == 4096 && k < 4096
    ensures PhysByte(ram, f * 4096 + k) == Some(bytes[k])
  {
    FramePart(f, k);
  }

  /** Reading an image through the page tables reads its pages, and its bytes are its own. */
  lemma ReadsImage(vm: Vm, ram: Ram, root: Frame, base: nat, img: Image)
    requires ImageHere(vm, ram, root, base, img) && base % 4096 == 0
    ensures var m := Space(vm.mem, root, ram, base); OwnBytes(m, img.Keys) && Sees(m, img, {})
  {
    var m := Space(vm.mem, root, ram, base);
    hide Translate, PhysByte, Behind, PageHere, PhysAt;
    forall o: nat | o / 4096 in img
      ensures PhysAt(m, o) != 0 && PhysByte(ram, PhysAt(m, o)).Some? && SeesByte(m, img, {}, o)
    {
      ByteAddress(vm, ram, root, base, img, o);
      ByteIs(m, o);
    }
    forall o, o': nat | o / 4096 in img && o' / 4096 in img && PhysAt(m, o) == PhysAt(m, o') ensures o == o' {
      ByteAddress(vm, ram, root, base, img, o);
      ByteAddress(vm, ram, root, base, img, o');
      SameParts(Behind(vm.mem, root, base, o / 4096).value, o % 4096, Behind(vm.mem, root, base, o' / 4096).value,
                o' % 4096);
    }
    forall o: nat ensures SeesByte(m, img, {}, o) {}
  }

  lemma ByteIs(m: Memory, o: nat)
    requires m.Space? && PhysAt(m, o) != 0
    ensures Byte(m, o) == PhysByte(m.ram, PhysAt(m, o))
  {}

  lemma SameParts(f: nat, o: nat, f': nat, o': nat)
    requires o < 4096 && o' < 4096 && f * 4096 + o == f' * 4096 + o'
    ensures f == f' && o == o'
  {}

  /** The resolvers agree on an image that was laid out and had its imports patched. */
  lemma LoadedAgrees(vm: Vm, ram: Ram, root: Frame, base: nat, file: seq<byte>, l: Layout, ps: seq<Patch>, s: seq<byte>)
    requires base % 4096 == 0 && ImageHere(vm, ram, root, base, ImageOf(file, l.secs, |l.secs|))
    requires PatchesOk(ps, ImageOf(file, l.secs, |l.secs|).Keys)
    requires HasLayout(file, l) && Placed(file, l) && ExportsOk(file, l, Dirty(ps))
    ensures var m := Space(vm.mem, root, Apply(vm.mem, root, base, ram, ps).0, base);
      GetProcAddress(m, base, s) == FindExport(file, base, s) && (Terminated(s) ==> GetProcAddress(m, base, s).Some?)
  {
    hide ImageHere, ImageOf, PatchesOk, HasLayout, Placed, ExportsOk, GetProcAddress, FindExport, OwnBytes,
      Terminated, Shows, Dirty, Apply, Byte;
    var img, m0 := ImageOf(file, l.secs, |l.secs|), Space(vm.mem, root, ram, base);
    ReadsImage(vm, ram, root, base, img);
    AppliedReadsBack(m0, img.Keys, ps);
    var m := Space(vm.mem, root, Apply(vm.mem, root, base, ram, ps).0, base);
    forall o: nat ensures SeesByte(m, img, Dirty(ps), o) { assert SeesByte(m0, img, {}, o); }
    ImageShows(m, file, l, Dirty(ps));
    ResolversAgree(m, file, l, Dirty(ps), base, s);
  }
}
