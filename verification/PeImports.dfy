/** The import walk of ResolveImports (kernel/ldr/pe_loader.cpp): which slots get which addresses,
    and what storing them through the page tables does.  Microsoft PE Format, section "The .idata
    Section", gives the tables. */
module PeImports {
  import opened Wrappers
  import opened ByteBuffers
  import opened PageTables
  import UserMemorySpec
  import opened PeFormat
  import opened PeMapping

  /** `Faulted` stands for a read outside the file, which the source does not check for. */
  datatype Status = Success | InvalidParameter | InvalidImage | NotFound | NoResources | Faulted

  /** A registry entry; the name is at most 31 bytes, none of them zero. */
  datatype Module = Module(name: seq<byte>, base: nat, file: seq<byte>)

  /** An address for a slot of the import address table. */
  datatype Patch = Patch(rva: nat, value: nat)

  /** FindModule: the first module with the name at an offset of the file. */
  function FindModule(mods: seq<Module>, file: seq<byte>, off: nat): Option<Option<Module>> {
    if mods == [] then Some(None) else
    var same :- StrEq(Blob(file), off, mods[0].name + [0]);
    if same then Some(Some(mods[0])) else FindModule(mods[1..], file, off)
  }

  /** The string that starts at an offset. */
  function From(file: seq<byte>, off: nat): seq<byte> { if off <= |file| then file[off..] else [] }

  /** A 64-bit import lookup entry of a table at `ints`. */
  function Thunk(file: seq<byte>, ints: nat, slot: nat): (r: Option<nat>)
    ensures r.Some? ==> ints + 8 * slot + 8 <= |file|
  {
    var r := Load(Blob(file), ints + 8 * slot, 8);
    if r.Some? then LoadInFile(file, ints + 8 * slot, 8); r else r
  }

  predicate ByOrdinal(thunk: nat) { thunk / 0x8000_0000_0000_0000 % 2 == 1 }

  /** What one lookup entry asks for. */
  datatype Target = End | Skip | Bad(st: Status) | Resolved(va: nat)

  function TargetOf(file: seq<byte>, l: Layout, mod: Module, ints: nat, slot: nat): (r: Target)
    ensures !r.Bad? ==> ints + 8 * slot + 8 <= |file|
  {
    var thunk := Thunk(file, ints, slot);
    if thunk.None? then Bad(Faulted) else
    if thunk.value == 0 then End else
    if ByOrdinal(thunk.value) then Skip else
    var off := Off(file, l, thunk.value % TWO32);
    if off.None? then Bad(Faulted) else
    if off.value == 0 then Skip else
    var va := FindExport(mod.file, mod.base, From(file, off.value + 2));
    if va.None? then Bad(Faulted) else
    if va.value == 0 then Bad(NotFound) else Resolved(va.value)
  }

  /** The thunk loop for one module from slot `slot` on. */
  function Thunks(file: seq<byte>, l: Layout, mod: Module, ints: nat, iat: nat, slot: nat): (seq<Patch>, Status)
    decreases |file| - 8 * slot
  {
    match TargetOf(file, l, mod, ints, slot)
    case Bad(st) => ([], st)
    case End => ([], Success)
    case Skip => Thunks(file, l, mod, ints, iat, slot + 1)
    case Resolved(va) =>
      var (rest, st) := Thunks(file, l, mod, ints, iat, slot + 1);
      ([Patch(iat + 8 * slot, va)] + rest, st)
  }

  /** An import descriptor: lookup table, module name, address table. */
  datatype Descriptor = Descriptor(ints: nat, name: nat, iat: nat)

  function DescriptorAt(file: seq<byte>, off: nat): (r: Option<Descriptor>)
    ensures r.Some? ==> off + 20 <= |file|
  {
    var m := Blob(file);
    var ints :- Load(m, off, 4);
    var name :- Load(m, off + 12, 4);
    var iat :- Load(m, off + 16, 4);
    LoadInFile(file, off + 16, 4);
    Some(Descriptor(ints, name, iat))
  }

  predicate Terminates(d: Descriptor) { d.name == 0 && d.iat == 0 }

  /** One descriptor: nothing to do, or the thunks of its module. */
  function OneModule(file: seq<byte>, l: Layout, mods: seq<Module>, d: Descriptor): (seq<Patch>, Status) {
    var name := Off(file, l, d.name);
    if name.None? then ([], Faulted) else
    if name.value == 0 then ([], Success) else
    var mod := FindModule(mods, file, name.value);
    if mod.None? then ([], Faulted) else
    if mod.value.None? then ([], NotFound) else
    var ints := Off(file, l, if d.ints != 0 then d.ints else d.iat);
    if ints.None? then ([], Faulted) else
    if ints.value == 0 then ([], Success) else
    Thunks(file, l, mod.value.value, ints.value, d.iat, 0)
  }

  /** The descriptor loop from an offset on. */
  function Descriptors(file: seq<byte>, l: Layout, mods: seq<Module>, off: nat): (seq<Patch>, Status)
    decreases |file| - off
  {
    var d := DescriptorAt(file, off);
    if d.None? then ([], Faulted) else
    if Terminates(d.value) then ([], Success) else
    var (ps, st) := OneModule(file, l, mods, d.value);
    if st != Success then (ps, st) else
    var (qs, rest) := Descriptors(file, l, mods, off + 20);
    (ps + qs, rest)
  }

  /** All slots to patch, in order, and how the walk ends if every one of them can be stored. */
  function Wanted(file: seq<byte>, l: Layout, mods: seq<Module>): (seq<Patch>, Status) {
    var rva := Load(Blob(file), l.pe + 144, 4);
    if rva.None? then ([], Faulted) else
    if rva.value == 0 then ([], Success) else
    var off := Off(file, l, rva.value);
    if off.None? then ([], Faulted) else
    if off.value == 0 then ([], InvalidImage) else
    Descriptors(file, l, mods, off.value)
  }

  // ---- Every by-name slot is in the list -----------------------------------------------------

  lemma {:induction false} ThunkPatched(file: seq<byte>, l: Layout, mod: Module, ints: nat, iat: nat, slot: nat, k: nat)
    requires Thunks(file, l, mod, ints, iat, slot).1 == Success && slot <= k
    requires forall j | slot <= j <= k :: Thunk(file, ints, j).Some? ==> Thunk(file, ints, j).value != 0
    ensures Thunk(file, ints, k).Some?
    ensures var thunk := Thunk(file, ints, k).value;
      !ByOrdinal(thunk) ==>
        var off := Off(file, l, thunk % TWO32);
        off.Some? && (off.value != 0 ==>
          var va := FindExport(mod.file, mod.base, From(file, off.value + 2));
          va.Some? && va.value != 0 && Patch(iat + 8 * k, va.value) in Thunks(file, l, mod, ints, iat, slot).0)
    decreases k - slot
  {
    hide Thunk, ByOrdinal, Off, FindExport, From;
    if slot < k {
      ThunkPatched(file, l, mod, ints, iat, slot + 1, k);
    }
  }

  /** Descriptor `k` of the table at `off` comes before the terminator. */
  ghost predicate Reached(file: seq<byte>, off: nat, k: nat) {
    forall j: nat | j <= k :: Live(file, off + 20 * j)
  }

  ghost predicate Live(file: seq<byte>,
                       off: nat) { DescriptorAt(file, off).Some? && !Terminates(DescriptorAt(file, off).value) }

  lemma {:induction false} DescriptorDone(file: seq<byte>, l: Layout, mods: seq<Module>, off: nat, k: nat)
    requires Descriptors(file, l, mods, off).1 == Success && Reached(file, off, k)
    ensures Live(file, off + 20 * k)
    ensures var (ps, st) := OneModule(file, l, mods, DescriptorAt(file, off + 20 * k).value);
      st == Success && forall p | p in ps :: p in Descriptors(file, l, mods, off).0
    decreases k
  {
    hide DescriptorAt, OneModule;
    assert Live(file, off + 20 * 0) && Live(file, off + 20 * k);
    if k > 0 {
      forall j: nat | j <= k - 1 ensures Live(file, off + 20 + 20 * j) {
        assert off + 20 * (j + 1) == off + 20 + 20 * j;
        assert Live(file, off + 20 * (j + 1));
      }
      DescriptorDone(file, l, mods, off + 20, k - 1);
    }
  }

  /** The module a descriptor names, and where its lookup entries are. */
  ghost predicate Names(file: seq<byte>, l: Layout, mods: seq<Module>, d: Descriptor, mod: Module, ints: nat) {
    var name, table := Off(file, l, d.name), Off(file, l, if d.ints != 0 then d.ints else d.iat);
    && name.Some? && name.value != 0 && FindModule(mods, file, name.value) == Some(Some(mod))
    && table == Some(ints) && ints != 0
  }

  /** A by-name entry and the string it names. */
  ghost predicate ByName(file: seq<byte>, l: Layout, ints: nat, slot: nat, s: seq<byte>) {
    var thunk := Thunk(file, ints, slot);
    thunk.Some? && !ByOrdinal(thunk.value)
    && var off := Off(file, l, thunk.value % TWO32); off.Some? && off.value != 0 && s == From(file, off.value + 2)
  }

  /** No entry up to `slot` ends the table. */
  ghost predicate Listed(file: seq<byte>, ints: nat, slot: nat) {
    forall j: nat | j <= slot && Thunk(file, ints, j).Some? :: Thunk(file, ints, j).value != 0
  }

  /** If the walk succeeds, every by-name slot of every descriptor is to be patched with the address
      that the named module exports under the name of its thunk. */
  lemma SlotWanted(file: seq<byte>, l: Layout, mods: seq<Module>, off: nat, k: nat, mod: Module, ints: nat, slot: nat,
                   s: seq<byte>)
    requires Descriptors(file, l, mods, off).1 == Success && Reached(file, off, k) && Live(file, off + 20 * k)
    requires Names(file, l, mods, DescriptorAt(file, off + 20 * k).value, mod, ints)
    requires Listed(file, ints, slot) && ByName(file, l, ints, slot, s)
    ensures var va, d := FindExport(mod.file, mod.base, s), DescriptorAt(file, off + 20 * k).value;
      va.Some? && va.value != 0 && Patch(d.iat + 8 * slot, va.value) in Descriptors(file, l, mods, off).0
  {
    hide DescriptorAt, Thunk, ByOrdinal, Off, FindExport, From, FindModule, Descriptors, Thunks, Reached;
    DescriptorDone(file, l, mods, off, k);
    var d := DescriptorAt(file, off + 20 * k).value;
    ThunkPatched(file, l, mod, ints, d.iat, 0, slot);
  }

  // ---- Storing -----------------------------------------------------------------------------

  function StoreByte(ram: Ram, phys: nat, b: byte): Ram {
    if phys / 4096 in ram && phys % 4096 < |ram[phys / 4096]| then
      var page: seq<byte> := ram[phys / 4096][phys % 4096 := b];
      ram[phys / 4096 := page]
    else ram
  }

  /** The low `n` bytes of a value, least significant first. */
  function Store(ram: Ram, phys: nat, value: nat, n: nat): Ram
    decreases n
  {
    if n == 0 then ram else Store(StoreByte(ram, phys, LowByte(value)), phys + 1, value / 0x100, n - 1)
  }

  /** PatchIATSlot for one slot after the other; false if one is not mapped. */
  function Apply(tables: map<Frame, seq<nat>>, root: Frame, base: nat, ram: Ram, ps: seq<Patch>): (Ram, bool)
    decreases |ps|
  {
    if ps == [] then (ram, true) else
    var phys := Translate(tables, root, base + ps[0].rva);
    if phys == 0 then (ram, false) else Apply(tables, root, base, Store(ram, phys, ps[0].value, 8), ps[1..])
  }

  function NthByte(value: nat, k: nat): byte { if k == 0 then LowByte(value) else NthByte(value / 0x100, k - 1) }

  lemma StoreByteAt(ram: Ram, phys: nat, b: byte, a: nat)
    ensures PhysByte(StoreByte(ram, phys, b), a) == if a == phys
      && PhysByte(ram, a).Some? then Some(b) else PhysByte(ram, a)
  {
    assert a == a / 4096 * 4096 + a % 4096 && phys == phys / 4096 * 4096 + phys % 4096;
  }

  lemma {:induction false} StoreAt(ram: Ram, phys: nat, value: nat, n: nat, a: nat)
    ensures PhysByte(Store(ram, phys, value, n), a) ==
      if phys <= a < phys + n && PhysByte(ram, a).Some? then Some(NthByte(value, a - phys)) else PhysByte(ram, a)
    decreases n
  {
    hide PhysByte, StoreByte, LowByte;
    if n > 0 {
      StoreByteAt(ram, phys, LowByte(value), a);
      StoreAt(StoreByte(ram, phys, LowByte(value)), phys + 1, value / 0x100, n - 1, a);
    }
  }

  predicate Fits(value: nat, n: nat) { if n == 0 then value == 0 else Fits(value / 0x100, n - 1) }

  lemma Fits64(value: nat)
    requires value < TWO64
    ensures Fits(value, 8)
  {
    var a := value / 0x1_0000_0000;
    assert value / 0x100 / 0x100 / 0x100 / 0x100 == a && a < 0x1_0000_0000;
    Fits32(a);
    assert Fits(value / 0x100 / 0x100, 6);
  }

  lemma Fits32(value: nat)
    requires value < TWO32
    ensures Fits(value, 4)
  {
    assert value / 0x100 / 0x100 / 0x100 / 0x100 == 0;
    assert Fits(value / 0x100 / 0x100, 2);
  }

  /** The bytes of a value from `off` on. */
  ghost predicate Stored(m: Memory, off: nat, value: nat, n: nat) {
    forall o: nat | off <= o < off + n :: Byte(m, o) == Some(NthByte(value, o - off))
  }

  lemma {:induction false} LoadStored(m: Memory, off: nat, value: nat, n: nat)
    requires Fits(value, n) && Stored(m, off, value, n)
    ensures Load(m, off, n) == Some(value)
    decreases n
  {
    hide Byte;
    if n > 0 {
      assert Byte(m, off) == Some(NthByte(value, 0));
      LoadStored(m, off + 1, value / 0x100, n - 1);
    }
  }

  /** The `n` bytes from a physical address on lie on data pages. */
  ghost predicate Held(ram: Ram, phys: nat, n: nat) {
    forall a: nat | phys <= a < phys + n :: PhysByte(ram, a).Some?
  }

  lemma StoredElsewhere(ram: Ram, phys: nat, value: nat)
    ensures forall a: nat | !(phys <= a < phys + 8) :: PhysByte(Store(ram, phys, value, 8), a) == PhysByte(ram, a)
  {
    hide PhysByte, Store, NthByte;
    forall a: nat | !(phys <= a < phys + 8)
      ensures PhysByte(Store(ram, phys, value, 8), a) == PhysByte(ram, a)
    {
      StoreAt(ram, phys, value, 8, a);
    }
  }

  /** One byte of the value, through the translation. */
  lemma StoredByte(tables: map<Frame, seq<nat>>, root: Frame, ram: Ram, va: nat, value: nat, o: nat)
    requires va % 4096 <= 4088 && Translate(tables, root, va) != 0 && va <= o < va + 8
    requires Held(ram, Translate(tables, root, va), 8)
    ensures Byte(Space(tables, root, Store(ram, Translate(tables, root, va), value, 8), 0), o)
      == Some(NthByte(value, o - va))
  {
    hide Translate, PhysByte, Store, NthByte;
    var phys := Translate(tables, root, va);
    UserMemorySpec.MappedWithinPage(tables, root, va, o - va);
    StoreAt(ram, phys, value, 8, phys + (o - va));
    assert PhysByte(ram, phys + (o - va)).Some?;
  }

  /** A value stored through a translation is what a load at that address gives; no other byte of
      physical memory changes. */
  lemma StoredReadsBack(tables: map<Frame, seq<nat>>, root: Frame, ram: Ram, va: nat, value: nat)
    requires value < TWO64 && va % 4096 <= 4088 && Translate(tables, root, va) != 0
    requires Held(ram, Translate(tables, root, va), 8)
    ensures var phys := Translate(tables, root, va); var now := Store(ram, phys, value, 8);
      && Load(Space(tables, root, now, 0), va, 8) == Some(value)
      && forall a: nat | !(phys <= a < phys + 8) :: PhysByte(now, a) == PhysByte(ram, a)
  {
    hide Translate, PhysByte, Byte, Store, NthByte, Load, Fits, Held;
    var m := Space(tables, root, Store(ram, Translate(tables, root, va), value, 8), 0);
    StoredElsewhere(ram, Translate(tables, root, va), value);
    forall o: nat | va <= o < va + 8 ensures Byte(m, o) == Some(NthByte(value, o - va)) {
      StoredByte(tables, root, ram, va, value, o);
    }
    Fits64(value);
    LoadStored(m, va, value, 8);
  }

  // ---- Reading the slots back ----------------------------------------------------------------

  predicate InSlot(o: nat, rva: nat) { rva <= o < rva + 8 }

  /** The offsets of the bytes of a slot, and of all slots. */
  ghost function Bytes(rva: nat): set<nat> { set o: nat | o < rva + 8 && InSlot(o, rva) }

  ghost function Dirty(ps: seq<Patch>): set<nat> { if ps == [] then {} else Bytes(ps[0].rva) + Dirty(ps[1..]) }

  /** Where the byte at an offset is in physical memory. */
  function PhysAt(m: Memory, o: nat): nat
    requires m.Space?
  {
    Translate(m.tables, m.root, m.base + o)
  }

  function WithRam(m: Memory, ram: Ram): Memory
    requires m.Space?
  {
    m.(ram := ram)
  }

  /** Every byte of the pages is a data byte of its own. */
  ghost predicate OwnBytes(m: Memory, pages: set<nat>) {
    && m.Space? && m.base % 4096 == 0
    && (forall o: nat | o / 4096 in pages :: PhysAt(m, o) != 0 && PhysByte(m.ram, PhysAt(m, o)).Some?)
    && (forall o, o': nat | o / 4096 in pages && o' / 4096 in pages && PhysAt(m, o) == PhysAt(m, o') :: o == o')
  }

  predicate PatchOk(p: Patch, pages: set<nat>) { p.rva % 8 == 0 && p.rva / 4096 in pages && p.value < TWO64 }

  /** Different, aligned slots in the pages. */
  ghost predicate PatchesOk(ps: seq<Patch>, pages: set<nat>) {
    && (forall i | 0 <= i < |ps| :: PatchOk(ps[i], pages))
    && (forall i, j | 0 <= i < j < |ps| :: ps[i].rva != ps[j].rva)
  }

  /** A slot does not cross a page. */
  lemma AlignedRoom(base: nat, rva: nat, k: nat)
    requires base % 4096 == 0 && rva % 8 == 0 && k < 8
    ensures (rva + k) / 4096 == rva / 4096 && (base + rva) % 4096 + k < 4096
  {
    var a, b, r := rva / 4096, base / 4096, rva % 4096;
    assert r == 8 * (rva / 8 - 512 * a);
    PartOf(a, r + k);
    PartOf(b + a, r);
  }

  lemma PartOf(a: nat, r: nat)
    requires r < 4096
    ensures (4096 * a + r) / 4096 == a && (4096 * a + r) % 4096 == r
  {}

  lemma SlotAddress(m: Memory, pages: set<nat>, p: Patch, k: nat)
    requires OwnBytes(m, pages) && PatchOk(p, pages) && k < 8
    ensures (p.rva + k) / 4096 in pages && PhysAt(m, p.rva + k) == PhysAt(m, p.rva) + k
  {
    hide Translate;
    AlignedRoom(m.base, p.rva, k);
    assert PhysAt(m, p.rva) != 0;
    UserMemorySpec.MappedWithinPage(m.tables, m.root, m.base + p.rva, k);
  }

  /** The eight bytes behind a slot are the slot's own. */
  lemma SlotBehind(m: Memory, pages: set<nat>, p: Patch, a: nat)
    requires OwnBytes(m, pages) && PatchOk(p, pages) && PhysAt(m, p.rva) <= a < PhysAt(m, p.rva) + 8
    ensures exists o: nat :: InSlot(o, p.rva) && o / 4096 in pages && PhysAt(m, o) == a
  {
    hide PhysAt, PatchOk;
    var k := a - PhysAt(m, p.rva);
    SlotAddress(m, pages, p, k);
    assert InSlot(p.rva + k, p.rva);
  }

  /** The memory after one slot is stored. */
  function Patched(m: Memory, p: Patch): Memory
    requires m.Space?
  {
    WithRam(m, Store(m.ram, PhysAt(m, p.rva), p.value, 8))
  }

  lemma PatchedByte(m: Memory, pages: set<nat>, p: Patch, o: nat)
    requires OwnBytes(m, pages) && PatchOk(p, pages) && o / 4096 in pages
    ensures Byte(Patched(m, p), o) == if InSlot(o, p.rva) then Some(NthByte(p.value, o - p.rva)) else Byte(m, o)
    ensures PhysByte(Patched(m, p).ram, PhysAt(m, o)).Some?
  {
    hide Translate, PhysByte, NthByte;
    var a := PhysAt(m, o);
    StoreAt(m.ram, PhysAt(m, p.rva), p.value, 8, a);
    if InSlot(o, p.rva) {
      SlotAddress(m, pages, p, o - p.rva);
    } else if PhysAt(m, p.rva) <= a < PhysAt(m, p.rva) + 8 {
      SlotBehind(m, pages, p, a);
    }
  }

  lemma PatchedOwn(m: Memory, pages: set<nat>, p: Patch)
    requires OwnBytes(m, pages) && PatchOk(p, pages)
    ensures OwnBytes(Patched(m, p), pages) && Stored(Patched(m, p), p.rva, p.value, 8)
  {
    hide Translate, PhysByte, Store, Byte, NthByte;
    var now := Patched(m, p);
    forall o: nat | o / 4096 in pages
      ensures PhysAt(now, o) == PhysAt(m, o) && PhysByte(now.ram, PhysAt(now, o)).Some?
    {
      PatchedByte(m, pages, p, o);
    }
    forall o: nat | p.rva <= o < p.rva + 8 ensures Byte(now, o) == Some(NthByte(p.value, o - p.rva)) {
      SlotAddress(m, pages, p, o - p.rva);
      PatchedByte(m, pages, p, o);
    }
  }

  lemma {:induction false} InDirty(ps: seq<Patch>, o: nat)
    ensures o in Dirty(ps) <==> exists i :: 0 <= i < |ps| && InSlot(o, ps[i].rva)
  {
    if ps != [] {
      InDirty(ps[1..], o);
      if o in Dirty(ps[1..]) {
        var i :| 0 <= i < |ps[1..]| && InSlot(o, ps[1..][i].rva);
        assert InSlot(o, ps[i + 1].rva);
      }
      if i :| 0 <= i < |ps| && InSlot(o, ps[i].rva) {
        if i > 0 { assert InSlot(o, ps[1..][i - 1].rva); }
      }
    }
  }

  lemma AlignedApart(r: nat, r': nat, o: nat)
    requires r % 8 == 0 && r' % 8 == 0 && r != r' && InSlot(o, r)
    ensures !InSlot(o, r')
  {}

  lemma SlotApart(ps: seq<Patch>, pages: set<nat>, o: nat)
    requires PatchesOk(ps, pages) && ps != [] && InSlot(o, ps[0].rva)
    ensures o !in Dirty(ps[1..])
  {
    InDirty(ps[1..], o);
    forall i | 0 <= i < |ps| - 1 ensures !InSlot(o, ps[1..][i].rva) {
      assert PatchOk(ps[0], pages) && PatchOk(ps[i + 1], pages);
      AlignedApart(ps[0].rva, ps[i + 1].rva, o);
    }
  }

  /** Patching succeeds; every slot then reads as the address it was given; every other byte of the
      pages, and of physical memory, is as before. */
  lemma {:induction false} AppliedReadsBack(m: Memory, pages: set<nat>, ps: seq<Patch>)
    requires OwnBytes(m, pages) && PatchesOk(ps, pages)
    ensures var (ram, ok) := Apply(m.tables, m.root, m.base, m.ram, ps);
      && ok && OwnBytes(WithRam(m, ram), pages)
      && (forall p | p in ps :: Load(WithRam(m, ram), p.rva, 8) == Some(p.value))
      && (forall o: nat | o / 4096 in pages && o !in Dirty(ps) :: Byte(WithRam(m, ram), o) == Byte(m, o))
    decreases |ps|
  {
    hide Translate, PhysByte, Store, Byte, NthByte, Load;
    if ps != [] {
      var p, now := ps[0], Patched(m, ps[0]);
      assert PatchOk(p, pages);
      PatchedOwn(m, pages, p);
      assert PatchesOk(ps[1..], pages);
      AppliedReadsBack(now, pages, ps[1..]);
      var (ram, ok) := Apply(m.tables, m.root, m.base, m.ram, ps);
      var last := WithRam(m, ram);
      assert PhysAt(m, p.rva) != 0;
      assert last == WithRam(now, Apply(m.tables, m.root, m.base, now.ram, ps[1..]).0);
      forall o: nat | p.rva <= o < p.rva + 8 ensures Byte(last, o) == Some(NthByte(p.value, o - p.rva)) {
        SlotApart(ps, pages, o);
        SlotAddress(m, pages, p, o - p.rva);
      }
      Fits64(p.value);
      LoadStored(last, p.rva, p.value, 8);
      forall o: nat | o / 4096 in pages && o !in Dirty(ps) ensures Byte(last, o) == Byte(m, o) {
        PatchedByte(m, pages, p, o);
      }
    }
  }

  /** A byte of memory behind no slot keeps its value. */
  lemma {:induction false} AppliedElsewhere(m: Memory, pages: set<nat>, ps: seq<Patch>, a: nat)
    requires OwnBytes(m, pages) && PatchesOk(ps, pages)
    requires forall o: nat | o / 4096 in pages && o in Dirty(ps) :: PhysAt(m, o) != a
    ensures PhysByte(Apply(m.tables, m.root, m.base, m.ram, ps).0, a) == PhysByte(m.ram, a)
    decreases |ps|
  {
    hide Translate, PhysByte, Store, Byte, NthByte, Load;
    if ps != [] {
      var p, now := ps[0], Patched(m, ps[0]);
      assert PatchOk(p, pages);
      PatchedOwn(m, pages, p);
      assert PatchesOk(ps[1..], pages);
      forall o: nat | o / 4096 in pages && o in Dirty(ps[1..]) ensures PhysAt(now, o) != a {
        assert o in Dirty(ps) && PhysAt(now, o) == PhysAt(m, o);
      }
      AppliedElsewhere(now, pages, ps[1..], a);
      StoreAt(m.ram, PhysAt(m, p.rva), p.value, 8, a);
      if PhysAt(m, p.rva) <= a < PhysAt(m, p.rva) + 8 { SlotBehind(m, pages, p, a); }
    }
  }

  // ---- All imports of an image ---------------------------------------------------------------

  lemma ExportFits(file: seq<byte>, base: nat, s: seq<byte>)
    ensures FindExport(file, base, s).Some? ==> FindExport(file, base, s).value < TWO64
  {
    hide Load, RvaToOff, ExportsAt, ScanFile;
    forall m, headers, n, t, i { ScanFits(m, headers, n, t, base, s, i); }
  }

  lemma {:induction false} ScanFits(m: Memory, headers: nat, n: nat, t: Exports, base: nat, s: seq<byte>, i: nat)
    ensures var r := ScanFile(m, headers, n, t, base, s, i); r.Some? ==> r.value < TWO64
    decreases t.count - i
  {
    hide Load, RvaToOff, StrEq;
    if i < t.count { ScanFits(m, headers, n, t, base, s, i + 1); }
  }

  ghost predicate AllFit(ps: seq<Patch>) { forall p | p in ps :: p.value < TWO64 }

  lemma {:induction false} ThunksFit(file: seq<byte>, l: Layout, mod: Module, ints: nat, iat: nat, slot: nat)
    ensures AllFit(Thunks(file, l, mod, ints, iat, slot).0)
    decreases |file| - 8 * slot
  {
    hide Thunk, Off, FindExport, From, ByOrdinal;
    forall s { ExportFits(mod.file, mod.base, s); }
    if TargetOf(file, l, mod, ints, slot).Skip? || TargetOf(file, l, mod, ints, slot).Resolved? {
      ThunksFit(file, l, mod, ints, iat, slot + 1);
    }
  }

  lemma {:induction false} DescriptorsFit(file: seq<byte>, l: Layout, mods: seq<Module>, off: nat)
    ensures AllFit(Descriptors(file, l, mods, off).0)
    decreases |file| - off
  {
    hide Off, Thunks, FindModule;
    var d := DescriptorAt(file, off);
    if d.Some? && !Terminates(d.value) {
      forall mod, ints, iat { ThunksFit(file, l, mod, ints, iat, 0); }
      DescriptorsFit(file, l, mods, off + 20);
    }
  }

  /** Aligned slots in different places of the pages. */
  ghost predicate PlacesOk(ps: seq<Patch>, pages: set<nat>) {
    && (forall i | 0 <= i < |ps| :: ps[i].rva % 8 == 0 && ps[i].rva / 4096 in pages)
    && (forall i, j | 0 <= i < j < |ps| :: ps[i].rva != ps[j].rva)
  }

  lemma WantedPatchesOk(file: seq<byte>, l: Layout, mods: seq<Module>, pages: set<nat>)
    requires PlacesOk(Wanted(file, l, mods).0, pages)
    ensures PatchesOk(Wanted(file, l, mods).0, pages)
  {
    hide Load, Off, Descriptors;
    forall off { DescriptorsFit(file, l, mods, off); }
    var ps := Wanted(file, l, mods).0;
    assert AllFit(ps);
    forall i | 0 <= i < |ps| ensures PatchOk(ps[i], pages) { assert ps[i] in ps; }
  }

  /** After a successful walk over an image with aligned, disjoint slots, a by-name slot read back
      through the page tables holds the address that the named module exports under its name. */
  lemma SlotReadsBack(m: Memory, pages: set<nat>, file: seq<byte>, l: Layout, mods: seq<Module>, off: nat,
                      k: nat, mod: Module, ints: nat, slot: nat, s: seq<byte>)
    requires OwnBytes(m, pages) && PlacesOk(Wanted(file, l, mods).0, pages) && Wanted(file, l, mods).1 == Success
    requires Load(Blob(file), l.pe + 144, 4).Some? && Load(Blob(file), l.pe + 144, 4).value != 0
    requires Off(file, l, Load(Blob(file), l.pe + 144, 4).value) == Some(off)
    requires Reached(file, off, k) && Live(file, off + 20 * k)
    requires Names(file, l, mods, DescriptorAt(file, off + 20 * k).value, mod, ints)
    requires Listed(file, ints, slot) && ByName(file, l, ints, slot, s)
    ensures var va, d := FindExport(mod.file, mod.base, s), DescriptorAt(file, off + 20 * k).value;
      var ram := Apply(m.tables, m.root, m.base, m.ram, Wanted(file, l, mods).0).0;
      va.Some? && va.value != 0 && Load(WithRam(m, ram), d.iat + 8 * slot, 8) == va
  {
    hide Load, Off, Descriptors, OwnBytes, PlacesOk, FindExport, Apply, Reached, Listed, ByName, Names, Live, WithRam,
      DescriptorAt;
    SlotWanted(file, l, mods, off, k, mod, ints, slot, s);
    WantedPatchesOk(file, l, mods, pages);
    AppliedReadsBack(m, pages, Wanted(file, l, mods).0);
  }
}
