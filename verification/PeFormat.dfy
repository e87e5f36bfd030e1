/** PE32+ images and the two export resolvers: FindExport of kernel/ldr/pe_loader.cpp works on the
    file, GetProcAddress of user/kernel32/kernel32.cpp on the mapped image.  Microsoft PE Format,
    section "The .edata Section", gives the tables. */
module PeFormat {
  import opened Wrappers
  import opened ByteBuffers
  import opened PageTables

  const TWO32: nat := 0x1_0000_0000
  const TWO64: nat := 0x1_0000_0000_0000_0000

  /** The pages of physical memory that hold data, by frame. */
  type Ram = map<Frame, seq<byte>>

  /** What loads are made from: a file in kernel memory, or an address space from `base` on. */
  datatype Memory = Blob(file: seq<byte>) | Space(tables: map<Frame, seq<nat>>, root: Frame, ram: Ram, base: nat)

  function PhysByte(ram: Ram, phys: nat): Option<byte> {
    if phys / 4096 in ram && phys % 4096 < |ram[phys / 4096]| then Some(ram[phys / 4096][phys % 4096]) else None
  }

  /** The byte at an offset; None where there is nothing to read. */
  function Byte(m: Memory, off: nat): Option<byte> {
    match m
    case Blob(file) => if off < |file| then Some(file[off]) else None
    case Space(tables, root, ram, base) =>
      var phys := Translate(tables, root, base + off);
      if phys == 0 then None else PhysByte(ram, phys)
  }

  /** `n` bytes from an offset on, least significant first. */
  function Load(m: Memory, off: nat, n: nat): Option<nat>
    decreases n
  {
    if n == 0 then Some(0) else
    var b :- Byte(m, off);
    var rest :- Load(m, off + 1, n - 1);
    Some(b + 0x100 * rest)
  }

  /** streq on the C string at an offset and the string that starts `s`: true or false, or None if
      either runs out of memory first. */
  function StrEq(m: Memory, off: nat, s: seq<byte>): Option<bool>
    decreases |s|
  {
    if s == [] then None else
    var c :- Byte(m, off);
    if c != 0 && c == s[0] then StrEq(m, off + 1, s[1..]) else Some(c == s[0])
  }

  // ---- The two resolvers --------------------------------------------------------------

  /** rva_to_off: the file offset behind an address, from `n` section headers; 0 if none covers it. */
  function RvaToOff(m: Memory, headers: nat, n: nat, rva: nat): Option<nat>
    decreases n
  {
    if n == 0 then Some(0) else
    var start :- Load(m, headers + 12, 4);
    var size :- Load(m, headers + 8, 4);
    var raw :- Load(m, headers + 20, 4);
    if start <= rva < (start + size) % TWO32 then Some((raw + (rva - start)) % TWO32)
    else RvaToOff(m, headers + 40, n - 1, rva)
  }

  /** The export tables: how many names, and where functions, names and ordinals are. */
  datatype Exports = Exports(count: nat, funcs: nat, names: nat, ords: nat)

  function ExportsAt(m: Memory, dir: nat): Option<Exports> {
    var count :- Load(m, dir + 24, 4);
    var funcs :- Load(m, dir + 28, 4);
    var names :- Load(m, dir + 32, 4);
    var ords :- Load(m, dir + 36, 4);
    Some(Exports(count, funcs, names, ords))
  }

  /** The address of the function for name `i`. */
  function Address(m: Memory, t: Exports, base: nat, i: nat): Option<nat> {
    var ord :- Load(m, t.ords + 2 * i, 2);
    var rva :- Load(m, t.funcs + 4 * ord, 4);
    Some((base + rva) % TWO64)
  }

  /** The name loop of FindExport: names outside every section are skipped. */
  function ScanFile(m: Memory, headers: nat, n: nat, t: Exports, base: nat, s: seq<byte>, i: nat): Option<nat>
    decreases t.count - i
  {
    if i >= t.count then Some(0) else
    var rva :- Load(m, t.names + 4 * i, 4);
    var off :- RvaToOff(m, headers, n, rva);
    if off == 0 then ScanFile(m, headers, n, t, base, s, i + 1) else
    var same :- StrEq(m, off, s);
    if same then Address(m, t, base, i) else ScanFile(m, headers, n, t, base, s, i + 1)
  }

  /** FindExport: 0 if the file does not export the name that starts `s`. */
  function FindExport(file: seq<byte>, base: nat, s: seq<byte>): Option<nat> {
    var m := Blob(file);
    var pe :- Load(m, 60, 4);
    var dir :- Load(m, pe + 136, 4);
    if dir == 0 then Some(0) else
    var n :- Load(m, pe + 6, 2);
    var size :- Load(m, pe + 20, 2);
    FindIn(m, pe + 24 + size, n, dir, base, s)
  }

  function FindIn(m: Memory, headers: nat, n: nat, dir: nat, base: nat, s: seq<byte>): Option<nat> {
    var ed :- RvaToOff(m, headers, n, dir);
    if ed == 0 then Some(0) else
    var t :- ExportsAt(m, ed);
    var funcs :- RvaToOff(m, headers, n, t.funcs);
    var names :- RvaToOff(m, headers, n, t.names);
    var ords :- RvaToOff(m, headers, n, t.ords);
    if funcs == 0 || names == 0 || ords == 0 then Some(0) else
    ScanFile(m, headers, n, Exports(t.count, funcs, names, ords), base, s, 0)
  }

  /** The name loop of GetProcAddress. */
  function ScanImage(m: Memory, t: Exports, base: nat, s: seq<byte>, i: nat): Option<nat>
    decreases t.count - i
  {
    if i >= t.count then Some(0) else
    var rva :- Load(m, t.names + 4 * i, 4);
    var same :- StrEq(m, rva, s);
    if same then Address(m, t, base, i) else ScanImage(m, t, base, s, i + 1)
  }

  /** GetProcAddress on an image at `base`. */
  function GetProcAddress(m: Memory, base: nat, s: seq<byte>): Option<nat> {
    var pe :- Load(m, 60, 4);
    var dir :- Load(m, pe + 136, 4);
    if dir == 0 then Some(0) else
    var t :- ExportsAt(m, dir);
    ScanImage(m, t, base, s, 0)
  }

  // ---- Layout ---------------------------------------------------------------------------

  datatype Section = Section(size: nat, rva: nat, rawSize: nat, rawOff: nat, flags: nat)

  /** Where the PE header and the section headers of a file are, and what the latter say. */
  datatype Layout = Layout(pe: nat, headers: nat, secs: seq<Section>)

  function SectionAt(m: Memory, off: nat): Option<Section> {
    var size :- Load(m, off + 8, 4);
    var rva :- Load(m, off + 12, 4);
    var rawSize :- Load(m, off + 16, 4);
    var rawOff :- Load(m, off + 20, 4);
    var flags :- Load(m, off + 36, 4);
    Some(Section(size, rva, rawSize, rawOff, flags))
  }

  ghost predicate HasSections(m: Memory, off: nat, secs: seq<Section>) {
    forall i | 0 <= i < |secs| :: SectionAt(m, off + 40 * i) == Some(secs[i])
  }

  ghost predicate HasLayout(file: seq<byte>, l: Layout) {
    var m := Blob(file);
    && Load(m, 60, 4) == Some(l.pe) && Load(m, l.pe + 6, 2) == Some(|l.secs|)
    && l.headers >= l.pe + 24 && Load(m, l.pe + 20, 2) == Some(l.headers - l.pe - 24)
    && HasSections(m, l.headers, l.secs)
  }

  function Min(a: nat, b: nat): nat { if a < b then a else b }

  /** Whole pages that hold `size` bytes. */
  function PagesOf(size: nat): nat { (size + 4095) / 4096 }

  /** Sections are page aligned, behind the header page, inside the file. */
  predicate SectionOk(file: seq<byte>, s: Section) {
    && s.rva < TWO32 && s.rawOff < TWO32
    && (s.size > 0 ==> s.rva >= 4096 && s.rva % 4096 == 0 && s.rva + s.size + 4095 < TWO32)
    && (s.rawSize > 0 ==> 0 < s.rawOff && s.rawOff + s.rawSize <= |file|)
  }

  /** The pages of two sections do not overlap. */
  predicate Apart(s: Section, t: Section) {
    s.size > 0 && t.size > 0 ==>
      s.rva + PagesOf(s.size) * 4096 <= t.rva || t.rva + PagesOf(t.size) * 4096 <= s.rva
  }

  ghost predicate Placed(file: seq<byte>, l: Layout) {
    && |file| < TWO32 && l.pe + 140 <= 4096
    && (forall i | 0 <= i < |l.secs| :: SectionOk(file, l.secs[i]))
    && (forall i, j | 0 <= i < j < |l.secs| :: Apart(l.secs[i], l.secs[j]))
  }

  /** `len` bytes at an address lie in the file part of a section. */
  predicate InSection(s: Section, rva: nat, len: nat) { s.rva <= rva && rva + len <= s.rva + Min(s.size, s.rawSize) }

  /** None of `len` bytes at an address is among `dirty` ones. */
  ghost predicate Clean(dirty: set<nat>, rva: nat, len: nat) { forall o: nat | rva <= o < rva + len :: o !in dirty }

  ghost predicate InRaw(l: Layout, dirty: set<nat>, rva: nat, len: nat) {
    Clean(dirty, rva, len) && exists i :: 0 <= i < |l.secs| && InSection(l.secs[i], rva, len)
  }

  // ---- The file offset behind an address --------------------------------------------------

  lemma {:induction false} LoadIsSmall(m: Memory, off: nat, n: nat)
    ensures n == 2 && Load(m, off, n).Some? ==> Load(m, off, n).value < 0x1_0000
    ensures n == 4 && Load(m, off, n).Some? ==> Load(m, off, n).value < TWO32
  {
    hide Byte;
    if n == 2 || n == 4 {
      var r := Load(m, off, n);
      assert Load(m, off + n, 0) == Some(0);
      if r.Some? {
        assert Load(m, off + n - 1, 1).Some? && Load(m, off + n - 1, 1).value < 0x100;
        assert Load(m, off + n - 2, 2).Some? && Load(m, off + n - 2, 2).value < 0x1_0000;
        if n == 4 {
          assert Load(m, off + 1, 3).Some? && Load(m, off + 1, 3).value < 0x100_0000;
        }
      }
    }
  }

  /** An address in the file part of one section is in no section apart from it. */
  lemma NotCovered(s: Section, t: Section, rva: nat)
    requires Apart(s, t) && InSection(t, rva, 1) && s.rva + s.size < TWO32
    ensures !(s.rva <= rva < (s.rva + s.size) % TWO32)
  {}

  lemma DropHeader(m: Memory, headers: nat, secs: seq<Section>)
    requires HasSections(m, headers, secs) && |secs| > 0
    ensures SectionAt(m, headers) == Some(secs[0]) && HasSections(m, headers + 40, secs[1..])
  {
    hide SectionAt;
    assert SectionAt(m, headers + 40 * 0) == Some(secs[0]);
    forall j | 0 <= j < |secs| - 1 ensures SectionAt(m, headers + 40 + 40 * j) == Some(secs[1..][j]) {
      assert headers + 40 * (j + 1) == headers + 40 + 40 * j;
      assert SectionAt(m, headers + 40 * (j + 1)) == Some(secs[j + 1]);
    }
  }

  /** One header of the section walk. */
  lemma HeaderStep(m: Memory, headers: nat, n: nat, s: Section, rva: nat)
    requires SectionAt(m, headers) == Some(s) && n > 0
    ensures RvaToOff(m, headers, n, rva) ==
      if s.rva <= rva < (s.rva + s.size) % TWO32 then Some((s.rawOff + (rva - s.rva)) % TWO32)
      else RvaToOff(m, headers + 40, n - 1, rva)
  {
    hide Load;
  }

  lemma Covered(s: Section, rva: nat)
    requires InSection(s, rva, 1) && s.rva + s.size < TWO32 && s.rawOff + s.rawSize < TWO32
    ensures s.rva <= rva < (s.rva + s.size) % TWO32
    ensures (s.rawOff + (rva - s.rva)) % TWO32 == s.rawOff + (rva - s.rva)
  {}

  /** rva_to_off finds the section that holds the address: no section before it covers it. */
  lemma {:induction false} RvaToOffFinds(m: Memory, headers: nat, secs: seq<Section>, i: nat, rva: nat)
    requires HasSections(m, headers, secs) && i < |secs| && InSection(secs[i], rva, 1)
    requires forall j | 0 <= j <= i :: secs[j].rva + secs[j].size < TWO32
    requires forall j | 0 <= j < i :: Apart(secs[j], secs[i])
    requires secs[i].rawOff + secs[i].rawSize < TWO32
    ensures RvaToOff(m, headers, |secs|, rva) == Some(secs[i].rawOff + (rva - secs[i].rva))
    decreases i
  {
    hide Load, SectionAt, Apart, HasSections, RvaToOff, InSection;
    DropHeader(m, headers, secs);
    HeaderStep(m, headers, |secs|, secs[0], rva);
    if i > 0 {
      NotCovered(secs[0], secs[i], rva);
      RvaToOffFinds(m, headers + 40, secs[1..], i - 1, rva);
    } else {
      Covered(secs[0], rva);
    }
  }

  // ---- The mapped image shows the file -----------------------------------------------------

  /** Byte `o` of a section is the file's, unless it is dirty. */
  ghost predicate Shown(m: Memory, file: seq<byte>, s: Section, dirty: set<nat>, o: nat) {
    s.rva + o in dirty || Byte(m, s.rva + o) == Byte(Blob(file), s.rawOff + o)
  }

  ghost predicate SectionShown(m: Memory, file: seq<byte>, s: Section, dirty: set<nat>) {
    forall o: nat | o < Min(s.size, s.rawSize) :: Shown(m, file, s, dirty, o)
  }

  ghost predicate HeaderShown(m: Memory, file: seq<byte>, dirty: set<nat>) {
    forall o: nat | o < 4096 && o < |file| && o !in dirty :: Byte(m, o) == Byte(Blob(file), o)
  }

  /** The image shows the header page and the file part of every section, up to dirty bytes. */
  ghost predicate Shows(m: Memory, file: seq<byte>, l: Layout, dirty: set<nat>) {
    HeaderShown(m, file, dirty) && forall i | 0 <= i < |l.secs| :: SectionShown(m, file, l.secs[i], dirty)
  }

  /** The `n` bytes from `a` on can be read, and are those from `b` on in another memory. */
  predicate Same(m: Memory, a: nat, m': Memory, b: nat, n: nat)
    decreases n
  {
    n > 0 ==> Byte(m, a).Some? && Byte(m, a) == Byte(m', b) && Same(m, a + 1, m', b + 1, n - 1)
  }

  lemma {:induction false} SamePart(m: Memory, a: nat, m': Memory, b: nat, n: nat, k: nat, len: nat)
    requires Same(m, a, m', b, n) && k + len <= n
    ensures Same(m, a + k, m', b + k, len)
    decreases n
  {
    hide Byte;
    if k > 0 {
      SamePart(m, a + 1, m', b + 1, n - 1, k - 1, len);
    } else if len > 0 {
      SamePart(m, a + 1, m', b + 1, n - 1, 0, len - 1);
    }
  }

  lemma {:induction false} SameLoad(m: Memory, a: nat, m': Memory, b: nat, n: nat)
    requires Same(m, a, m', b, n)
    ensures Load(m, a, n) == Load(m', b, n) && Load(m, a, n).Some?
    decreases n
  {
    hide Byte;
    if n > 0 { SameLoad(m, a + 1, m', b + 1, n - 1); }
  }

  /** Where rva_to_off puts an address. */
  function Off(file: seq<byte>, l: Layout, rva: nat): Option<nat> { RvaToOff(Blob(file), l.headers, |l.secs|, rva) }

  lemma {:induction false} SectionSame(m: Memory, file: seq<byte>, s: Section, dirty: set<nat>, o: nat, len: nat)
    requires SectionShown(m, file, s, dirty) && o + len <= Min(s.size, s.rawSize) && s.rawOff + s.rawSize <= |file|
    requires Clean(dirty, s.rva + o, len)
    ensures Same(m, s.rva + o, Blob(file), s.rawOff + o, len)
    decreases len
  {
    if len > 0 {
      assert Shown(m, file, s, dirty, o);
      SectionSame(m, file, s, dirty, o + 1, len - 1);
    }
  }

  /** For addresses in the file part of sections, reading the image is reading the file. */
  lemma SameBytes(m: Memory, file: seq<byte>, l: Layout, dirty: set<nat>, rva: nat, len: nat)
    requires HasLayout(file, l) && Placed(file, l) && Shows(m, file, l, dirty) && InRaw(l, dirty, rva, len) && len > 0
    ensures Off(file, l, rva).Some? && Off(file, l, rva).value > 0
    ensures Same(m, rva, Blob(file), Off(file, l, rva).value, len)
  {
    hide Byte, RvaToOff, Load, HasSections, Apart, Same, SectionShown;
    var i :| 0 <= i < |l.secs| && InSection(l.secs[i], rva, len);
    var s := l.secs[i];
    assert SectionOk(file, s);
    forall j | 0 <= j <= i ensures l.secs[j].rva + l.secs[j].size < TWO32 { assert SectionOk(file, l.secs[j]); }
    RvaToOffFinds(Blob(file), l.headers, l.secs, i, rva);
    SectionSame(m, file, s, dirty, rva - s.rva, len);
  }

  lemma {:induction false} LoadInFile(file: seq<byte>, off: nat, n: nat)
    requires Load(Blob(file), off, n).Some? && n > 0
    ensures off + n <= |file|
    decreases n
  {
    if n > 1 { LoadInFile(file, off + 1, n - 1); }
  }

  lemma {:induction false} HeaderSame(m: Memory, file: seq<byte>, dirty: set<nat>, off: nat, len: nat)
    requires HeaderShown(m, file, dirty) && off + len <= 4096 && off + len <= |file| && Clean(dirty, off, len)
    ensures Same(m, off, Blob(file), off, len)
    decreases len
  {
    if len > 0 { HeaderSame(m, file, dirty, off + 1, len - 1); }
  }

  // ---- The resolvers agree -------------------------------------------------------------------

  predicate Terminated(s: seq<byte>) { 0 in s }

  lemma {:induction false} SameString(m: Memory, a: nat, m': Memory, b: nat, len: nat, s: seq<byte>)
    requires Same(m, a, m', b, len + 1) && Byte(m', b + len) == Some(0)
    ensures StrEq(m, a, s) == StrEq(m', b, s) && (Terminated(s) ==> StrEq(m, a, s).Some?)
    decreases len
  {
    hide Byte;
    if s != [] {
      assert Byte(m, a) == Byte(m', b);
      if len > 0 { SameString(m, a + 1, m', b + 1, len - 1, s[1..]); }
    }
  }

  /** A string that ends in the file part of a section. */
  ghost predicate StringOk(file: seq<byte>, l: Layout, dirty: set<nat>, rva: nat, len: nat) {
    InRaw(l, dirty, rva, len + 1) && Off(file, l, rva).Some?
      && Byte(Blob(file), Off(file, l, rva).value + len) == Some(0)
  }

  ghost predicate NameOk(file: seq<byte>, l: Layout, dirty: set<nat>, rva: nat) {
    exists len: nat :: StringOk(file, l, dirty, rva, len)
  }

  /** Export `i`: its name and its slot of the function table are in file parts of sections. */
  ghost predicate ExportOk(file: seq<byte>, l: Layout, dirty: set<nat>, t: Exports, i: nat) {
    var m, names, ords := Blob(file), Off(file, l, t.names), Off(file, l, t.ords);
    && names.Some? && ords.Some?
    && Load(m, names.value + 4 * i, 4).Some? && NameOk(file, l, dirty, Load(m, names.value + 4 * i, 4).value)
    && Load(m, ords.value + 2 * i, 2).Some? && InRaw(l, dirty, t.funcs, 4 * Load(m, ords.value + 2 * i, 2).value + 4)
  }

  ghost predicate TablesOk(file: seq<byte>, l: Layout, dirty: set<nat>, t: Exports) {
    && InRaw(l, dirty, t.names, 4 * t.count) && InRaw(l, dirty, t.ords, 2 * t.count)
    && forall i: nat | i < t.count :: ExportOk(file, l, dirty, t, i)
  }

  /** The export data of a file is in the file parts of its sections, and none of it is dirty. */
  ghost predicate ExportsOk(file: seq<byte>, l: Layout, dirty: set<nat>) {
    var dir := Load(Blob(file), l.pe + 136, 4);
    && Clean(dirty, 60, 4) && Clean(dirty, l.pe + 136, 4) && dir.Some?
    && (dir.value != 0 ==> DirectoryOk(file, l, dirty, dir.value))
  }

  ghost predicate DirectoryOk(file: seq<byte>, l: Layout, dirty: set<nat>, dir: nat) {
    && InRaw(l, dirty, dir, 40) && Off(file, l, dir).Some?
    && var t := ExportsAt(Blob(file), Off(file, l, dir).value);
       t.Some? && Off(file, l, t.value.funcs).Some? && Off(file, l, t.value.names).Some?
         && Off(file, l, t.value.ords).Some?
       && (t.value.count > 0 ==> TablesOk(file, l, dirty, t.value))
  }

  /** The tables as FindExport addresses them. */
  function FileTables(file: seq<byte>, l: Layout, t: Exports): Exports
    requires Off(file, l, t.funcs).Some? && Off(file, l, t.names).Some? && Off(file, l, t.ords).Some?
  {
    Exports(t.count, Off(file, l, t.funcs).value, Off(file, l, t.names).value, Off(file, l, t.ords).value)
  }

  /** What the two loops have in common. */
  ghost predicate Common(m: Memory, file: seq<byte>, l: Layout, dirty: set<nat>, t: Exports) {
    && HasLayout(file, l) && Placed(file, l) && Shows(m, file, l, dirty)
    && Off(file, l, t.funcs).Some? && Off(file, l, t.names).Some? && Off(file, l, t.ords).Some?
    && TablesOk(file, l, dirty, t)
  }

  lemma SameNames(m: Memory, file: seq<byte>, l: Layout, dirty: set<nat>, t: Exports, i: nat, s: seq<byte>)
    requires Common(m, file, l, dirty, t) && i < t.count
    ensures var rva := Load(m, t.names + 4 * i, 4);
      && rva.Some? && rva == Load(Blob(file), FileTables(file, l, t).names + 4 * i, 4)
      && Off(file, l, rva.value).Some? && Off(file, l, rva.value).value != 0
      && StrEq(m, rva.value, s) == StrEq(Blob(file), Off(file, l, rva.value).value, s)
      && (Terminated(s) ==> StrEq(m, rva.value, s).Some?)
  {
    hide Byte, Load, HasLayout, Placed, Shows, InRaw, Off, Same, StrEq;
    var names := FileTables(file, l, t).names;
    assert ExportOk(file, l, dirty, t, i);
    SameBytes(m, file, l, dirty, t.names, 4 * t.count);
    SamePart(m, t.names, Blob(file), names, 4 * t.count, 4 * i, 4);
    SameLoad(m, t.names + 4 * i, Blob(file), names + 4 * i, 4);
    var rva := Load(m, t.names + 4 * i, 4).value;
    var len: nat :| StringOk(file, l, dirty, rva, len);
    SameBytes(m, file, l, dirty, rva, len + 1);
    SameString(m, rva, Blob(file), Off(file, l, rva).value, len, s);
  }

  lemma SameAddress(m: Memory, file: seq<byte>, l: Layout, dirty: set<nat>, t: Exports, base: nat, i: nat)
    requires Common(m, file, l, dirty, t) && i < t.count
    ensures Address(m, t, base, i) == Address(Blob(file), FileTables(file, l, t), base, i)
    ensures Address(m, t, base, i).Some?
  {
    hide Byte, Load, HasLayout, Placed, Shows, InRaw, Off, Same;
    var u := FileTables(file, l, t);
    assert ExportOk(file, l, dirty, t, i);
    SameBytes(m, file, l, dirty, t.ords, 2 * t.count);
    SamePart(m, t.ords, Blob(file), u.ords, 2 * t.count, 2 * i, 2);
    SameLoad(m, t.ords + 2 * i, Blob(file), u.ords + 2 * i, 2);
    var ord := Load(m, t.ords + 2 * i, 2).value;
    SameBytes(m, file, l, dirty, t.funcs, 4 * ord + 4);
    SamePart(m, t.funcs, Blob(file), u.funcs, 4 * ord + 4, 4 * ord, 4);
    SameLoad(m, t.funcs + 4 * ord, Blob(file), u.funcs + 4 * ord, 4);
  }

  lemma {:induction false} ScansAgree(m: Memory, file: seq<byte>, l: Layout, dirty: set<nat>, t: Exports, base: nat,
                                      s: seq<byte>, i: nat)
    requires Common(m, file, l, dirty, t)
    ensures ScanImage(m, t, base, s, i) == ScanFile(Blob(file), l.headers, |l.secs|, FileTables(file, l, t), base, s, i)
    ensures Terminated(s) ==> ScanImage(m, t, base, s, i).Some?
    decreases t.count - i
  {
    hide Load, StrEq, Address, Common, RvaToOff, Byte, Terminated;
    assert Off(file, l, t.funcs).Some? && Off(file, l, t.names).Some?
      && Off(file, l, t.ords).Some? by { CommonOffsets(m, file, l, dirty, t); }
    if i < t.count {
      SameNames(m, file, l, dirty, t, i, s);
      SameAddress(m, file, l, dirty, t, base, i);
      ScansAgree(m, file, l, dirty, t, base, s, i + 1);
    }
  }

  lemma CommonOffsets(m: Memory, file: seq<byte>, l: Layout, dirty: set<nat>, t: Exports)
    requires Common(m, file, l, dirty, t)
    ensures Off(file, l, t.funcs).Some? && Off(file, l, t.names).Some? && Off(file, l, t.ords).Some?
  {}

  /** With at least one export, none of the tables starts at offset 0. */
  lemma TablesInFile(m: Memory, file: seq<byte>, l: Layout, dirty: set<nat>, t: Exports)
    requires Common(m, file, l, dirty, t) && t.count > 0
    ensures var u := FileTables(file, l, t); u.funcs > 0 && u.names > 0 && u.ords > 0
  {
    hide Byte, Load, HasLayout, Placed, Shows, InRaw, Off, Same, NameOk;
    assert ExportOk(file, l, dirty, t, 0);
    SameBytes(m, file, l, dirty, t.names, 4 * t.count);
    SameBytes(m, file, l, dirty, t.ords, 2 * t.count);
    SameBytes(m, file, l, dirty, t.funcs, 4 * Load(Blob(file), FileTables(file, l, t).ords + 0, 2).value + 4);
  }

  /** The directory reads the same in the image and in the file. */
  lemma SameDirectory(m: Memory, file: seq<byte>, l: Layout, dirty: set<nat>, dir: nat)
    requires HasLayout(file, l) && Placed(file, l) && Shows(m, file, l, dirty) && InRaw(l, dirty, dir, 40)
    ensures Off(file, l, dir).Some? && Off(file, l, dir).value != 0
    ensures ExportsAt(m, dir) == ExportsAt(Blob(file), Off(file, l, dir).value)
  {
    hide Byte, Load, HasLayout, Placed, Shows, InRaw, Off, Same;
    SameBytes(m, file, l, dirty, dir, 40);
    var off := Off(file, l, dir).value;
    SamePart(m, dir, Blob(file), off, 40, 24, 4);
    SamePart(m, dir, Blob(file), off, 40, 28, 4);
    SamePart(m, dir, Blob(file), off, 40, 32, 4);
    SamePart(m, dir, Blob(file), off, 40, 36, 4);
    SameLoad(m, dir + 24, Blob(file), off + 24, 4);
    SameLoad(m, dir + 28, Blob(file), off + 28, 4);
    SameLoad(m, dir + 32, Blob(file), off + 32, 4);
    SameLoad(m, dir + 36, Blob(file), off + 36, 4);
  }

  lemma SameHeader(m: Memory, file: seq<byte>, l: Layout, dirty: set<nat>)
    requires HasLayout(file, l) && Placed(file, l) && Shows(m, file, l, dirty) && ExportsOk(file, l, dirty)
    ensures Load(m, 60, 4) == Load(Blob(file), 60, 4) == Some(l.pe)
    ensures Load(m, l.pe + 136, 4) == Load(Blob(file), l.pe + 136, 4)
  {
    hide Byte, Load, HasSections, DirectoryOk, Same, HeaderShown, SectionShown, SectionOk, Apart;
    LoadInFile(file, 60, 4);
    LoadInFile(file, l.pe + 136, 4);
    HeaderSame(m, file, dirty, 60, 4);
    HeaderSame(m, file, dirty, l.pe + 136, 4);
    SameLoad(m, 60, Blob(file), 60, 4);
    SameLoad(m, l.pe + 136, Blob(file), l.pe + 136, 4);
  }

  /** From the directory on. */
  lemma DirectoriesAgree(m: Memory, file: seq<byte>, l: Layout, dirty: set<nat>, dir: nat, base: nat, s: seq<byte>)
    requires HasLayout(file, l) && Placed(file, l) && Shows(m, file, l, dirty) && DirectoryOk(file, l, dirty, dir)
    ensures ExportsAt(m, dir).Some?
    ensures ScanImage(m, ExportsAt(m, dir).value, base, s, 0) == FindIn(Blob(file), l.headers, |l.secs|, dir, base, s)
    ensures Terminated(s) ==> ScanImage(m, ExportsAt(m, dir).value, base, s, 0).Some?
  {
    hide Byte, Load, HasLayout, Placed, Shows, InRaw, RvaToOff, ExportsAt, TablesOk, ScanFile, ScanImage, Terminated;
    SameDirectory(m, file, l, dirty, dir);
    var t := ExportsAt(m, dir).value;
    if t.count > 0 {
      ScansAgree(m, file, l, dirty, t, base, s, 0);
      TablesInFile(m, file, l, dirty, t);
    } else {
      NothingToScan(m, file, l, t, base, s);
    }
  }

  lemma NothingToScan(m: Memory, file: seq<byte>, l: Layout, t: Exports, base: nat, s: seq<byte>)
    requires t.count == 0
    ensures ScanImage(m, t, base, s, 0) == Some(0)
    ensures forall u: Exports | u.count == 0 :: ScanFile(Blob(file), l.headers, |l.secs|, u, base, s, 0) == Some(0)
  {}

  /** On a well-formed image that is mapped as it is in the file, both resolvers give the same
      address for every name; neither reads outside its memory for a name that ends. */
  lemma ResolversAgree(m: Memory, file: seq<byte>, l: Layout, dirty: set<nat>, base: nat, s: seq<byte>)
    requires HasLayout(file, l) && Placed(file, l) && ExportsOk(file, l, dirty) && Shows(m, file, l, dirty)
    ensures GetProcAddress(m, base, s) == FindExport(file, base, s)
    ensures Terminated(s) ==> GetProcAddress(m, base, s).Some?
  {
    hide Byte, Load, HasSections, Placed, Shows, DirectoryOk, ExportsAt, ScanImage, FindIn, Clean, Terminated;
    SameHeader(m, file, l, dirty);
    var dir := Load(m, l.pe + 136, 4).value;
    if dir != 0 { DirectoriesAgree(m, file, l, dirty, dir, base, s); }
  }
}
