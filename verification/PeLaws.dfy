/** What the export and import tables of a file mean, in terms of the bytes that Microsoft PE Format
    (sections "The .edata Section", "The .idata Section" and "Section Table") gives a meaning. */
module PeLaws {
  import opened Wrappers
  import opened ByteBuffers
  import opened PageTables
  import opened PeFormat
  import opened PeMapping
  import opened PeImports
  import opened LoadedImages
  import opened PeLoader

  // ---- Values and strings ----------------------------------------------------------------------

  /** The unsigned value of the bytes at an offset, least significant first. */
  function Little(bs: seq<byte>): nat { if bs == [] then 0 else bs[0] + 0x100 * Little(bs[1..]) }

  /** A load gives the little-endian value of the bytes there. */
  lemma {:induction false} LoadMeans(m: Memory, off: nat, bs: seq<byte>)
    requires forall k | 0 <= k < |bs| :: Byte(m, off + k) == Some(bs[k])
    ensures Load(m, off, |bs|) == Some(Little(bs))
    decreases |bs|
  {
    hide Byte;
    if bs != [] {
      assert Byte(m, off + 0) == Some(bs[0]);
      forall k | 0 <= k < |bs[1..]| ensures Byte(m, off + 1 + k) == Some(bs[1..][k]) {
        assert Byte(m, off + (k + 1)) == Some(bs[k + 1]);
      }
      LoadMeans(m, off + 1, bs[1..]);
    }
  }

  /** The C string at an offset and the one that starts `s` are the same `n` characters. */
  ghost predicate SameText(m: Memory, off: nat, s: seq<byte>, n: nat) {
    && n < |s| && s[n] == 0 && Byte(m, off + n) == Some(0)
    && forall k | 0 <= k < n :: s[k] != 0 && Byte(m, off + k) == Some(s[k])
  }

  ghost predicate IsText(m: Memory, off: nat, s: seq<byte>) { exists n: nat :: SameText(m, off, s, n) }

  lemma TextStep(m: Memory, off: nat, s: seq<byte>, n: nat)
    requires s != [] && s[0] != 0 && Byte(m, off) == Some(s[0])
    ensures SameText(m, off, s, n + 1) <==> SameText(m, off + 1, s[1..], n)
  {
    hide Byte;
    if SameText(m, off + 1, s[1..], n) {
      forall k | 0 <= k < n + 1 ensures s[k] != 0 && Byte(m, off + k) == Some(s[k]) {
        if k > 0 { assert s[1..][k - 1] == s[k] && Byte(m, off + 1 + (k - 1)) == Some(s[1..][k - 1]); }
      }
    }
    if SameText(m, off, s, n + 1) {
      forall k | 0 <= k < n ensures s[1..][k] != 0 && Byte(m, off + 1 + k) == Some(s[1..][k]) {
        assert Byte(m, off + (k + 1)) == Some(s[k + 1]);
      }
    }
  }

  /** streq is equality of C strings. */
  lemma {:induction false} StrEqMeans(m: Memory, off: nat, s: seq<byte>)
    ensures StrEq(m, off, s) == Some(true) <==> IsText(m, off, s)
    decreases |s|
  {
    hide Byte;
    if s != [] && s[0] != 0 && Byte(m, off) == Some(s[0]) {
      var next, rest := off + 1, s[1..];
      StrEqMeans(m, next, rest);
      if n: nat :| SameText(m, off, s, n) {
        assert n > 0;
        TextStep(m, off, s, n - 1);
      }
      if n: nat :| SameText(m, next, rest, n) { TextStep(m, off, s, n); }
    } else if s != [] && s[0] == 0 && Byte(m, off) == Some(0) {
      assert SameText(m, off, s, 0);
    } else {
      forall n: nat ensures !SameText(m, off, s, n) {
        if SameText(m, off, s, n) { OtherText(m, off, s, n); }
      }
    }
  }

  lemma OtherText(m: Memory, off: nat, s: seq<byte>, n: nat)
    requires SameText(m, off, s, n)
    ensures s != [] && Byte(m, off) == Some(s[0])
  {
    hide Byte;
    assert n > 0 ==> Byte(m, off + 0) == Some(s[0]);
  }

  // ---- Sections ----------------------------------------------------------------------------------

  /** Section header `i` covers an address: VirtualAddress at 12, VirtualSize at 8, in 32 bits. */
  ghost predicate Covers(m: Memory, headers: nat, i: nat, rva: nat) {
    var start, size := Load(m, headers + 40 * i + 12, 4), Load(m, headers + 40 * i + 8, 4);
    start.Some? && size.Some? && start.value <= rva < (start.value + size.value) % TWO32
  }

  /** The file offset that header `i` gives an address: PointerToRawData at 20. */
  ghost predicate PutsAt(m: Memory, headers: nat, i: nat, rva: nat, off: nat) {
    var start, raw := Load(m, headers + 40 * i + 12, 4), Load(m, headers + 40 * i + 20, 4);
    start.Some? && raw.Some? && start.value <= rva && off == (raw.value + (rva - start.value)) % TWO32
  }

  lemma HeaderShift(m: Memory, headers: nat, i: nat, rva: nat, off: nat)
    ensures Covers(m, headers + 40, i, rva) <==> Covers(m, headers, i + 1, rva)
    ensures PutsAt(m, headers + 40, i, rva, off) <==> PutsAt(m, headers, i + 1, rva, off)
  {
    hide Load;
    assert headers + 40 * (i + 1) == headers + 40 + 40 * i;
  }

  /** Header `i` is the first that covers the address, and puts it at `off`. */
  ghost predicate FirstCovers(m: Memory, headers: nat, i: nat, rva: nat, off: nat) {
    && Covers(m, headers, i, rva) && PutsAt(m, headers, i, rva, off)
    && forall j | 0 <= j < i :: !Covers(m, headers, j, rva)
  }

  ghost predicate NoneCovers(m: Memory, headers: nat, n: nat, rva: nat) {
    forall i | 0 <= i < n :: !Covers(m, headers, i, rva)
  }

  lemma LaterCovers(m: Memory, headers: nat, n: nat, rva: nat, off: nat, i: nat)
    requires !Covers(m, headers, 0, rva)
    ensures FirstCovers(m, headers + 40, i, rva, off) ==> FirstCovers(m, headers, i + 1, rva, off)
    ensures n > 0 && NoneCovers(m, headers + 40, n - 1, rva) ==> NoneCovers(m, headers, n, rva)
  {
    hide Load, Covers, PutsAt;
    var next := headers + 40;
    HeaderShift(m, headers, i, rva, off);
    forall j: nat ensures Covers(m, headers, j, rva) ==> j > 0 && Covers(m, next, j - 1, rva) {
      if j > 0 { HeaderShift(m, headers, j - 1, rva, off); }
    }
  }

  /** rva_to_off gives what the first header that covers the address says, and 0 if none does. */
  lemma {:induction false} RvaToOffMeans(m: Memory, headers: nat, n: nat, rva: nat)
    requires RvaToOff(m, headers, n, rva).Some?
    ensures var off := RvaToOff(m, headers, n, rva).value;
      || (off == 0 && NoneCovers(m, headers, n, rva))
      || exists i | 0 <= i < n :: FirstCovers(m, headers, i, rva, off)
    decreases n
  {
    hide Load, Covers, PutsAt, FirstCovers, NoneCovers;
    if n > 0 {
      var off, next := RvaToOff(m, headers, n, rva).value, headers + 40;
      FirstHeader(m, headers, n, rva);
      if Covers(m, headers, 0, rva) {
        assert FirstCovers(m, headers, 0, rva, off) by { CoversFirst(m, headers, rva, off); }
      } else {
        RvaToOffMeans(m, next, n - 1, rva);
        LaterCovers(m, headers, n, rva, off, 0);
        if i :| 0 <= i < n - 1 && FirstCovers(m, next, i, rva, off) { LaterCovers(m, headers, n, rva, off, i); }
      }
    } else {
      assert NoneCovers(m, headers, n, rva) by { NoHeaderCovers(m, headers, rva); }
    }
  }

  lemma CoversFirst(m: Memory, headers: nat, rva: nat, off: nat)
    requires Covers(m, headers, 0, rva) && PutsAt(m, headers, 0, rva, off)
    ensures FirstCovers(m, headers, 0, rva, off)
  {}

  lemma NoHeaderCovers(m: Memory, headers: nat, rva: nat)
    ensures NoneCovers(m, headers, 0, rva)
  {}

  lemma FirstHeader(m: Memory, headers: nat, n: nat, rva: nat)
    requires n > 0 && RvaToOff(m, headers, n, rva).Some?
    ensures if Covers(m, headers, 0, rva) then PutsAt(m, headers, 0, rva, RvaToOff(m, headers, n, rva).value)
            else RvaToOff(m, headers, n, rva) == RvaToOff(m, headers + 40, n - 1, rva)
  {
    hide Load;
    assert headers + 40 * 0 == headers;
  }

  /** The fields of a section header. */
  lemma SectionFields(m: Memory, off: nat, s: Section)
    requires SectionAt(m, off) == Some(s)
    ensures Load(m, off + 8, 4) == Some(s.size) && Load(m, off + 12, 4) == Some(s.rva)
    ensures Load(m, off + 16, 4) == Some(s.rawSize) && Load(m, off + 20, 4) == Some(s.rawOff)
    ensures Load(m, off + 36, 4) == Some(s.flags)
  {
    hide Load;
  }

  // ---- Exports --------------------------------------------------------------------------------------

  /** The address of export `i`: the function table's entry at the ordinal, from the image's base on. */
  ghost predicate ExportedAt(m: Memory, funcs: nat, ords: nat, base: nat, i: nat, a: nat) {
    var ord := Load(m, ords + 2 * i, 2);
    ord.Some? && var rva := Load(m, funcs + 4 * ord.value, 4); rva.Some? && a == (base + rva.value) % TWO64
  }

  /** Entry `i` of the name pointer table of a file leads to the text. */
  ghost predicate FileNames(m: Memory, headers: nat, n: nat, names: nat, i: nat, s: seq<byte>) {
    var rva := Load(m, names + 4 * i, 4);
    rva.Some? && var off := RvaToOff(m, headers, n, rva.value); off.Some? && off.value != 0 && IsText(m, off.value, s)
  }

  lemma {:induction false} ScanFileMeans(m: Memory, headers: nat, n: nat, t: Exports, base: nat, s: seq<byte>, i: nat)
    requires ScanFile(m, headers, n, t, base, s, i).Some?
    ensures var a := ScanFile(m, headers, n, t, base, s, i).value;
      || (a == 0 && forall k | i <= k < t.count :: !FileNames(m, headers, n, t.names, k, s))
      || exists k | i <= k < t.count :: FileNames(m, headers, n, t.names, k, s)
           && ExportedAt(m, t.funcs, t.ords, base, k, a)
           && forall j | i <= j < k :: !FileNames(m, headers, n, t.names, j, s)
    decreases t.count - i
  {
    hide Load, RvaToOff, StrEq, IsText, FileNames, ExportedAt;
    if i < t.count {
      var a := ScanFile(m, headers, n, t, base, s, i).value;
      ScanFileStep(m, headers, n, t, base, s, i);
      if !FileNames(m, headers, n, t.names, i, s) { ScanFileMeans(m, headers, n, t, base, s, i + 1); }
    }
  }

  lemma ScanFileStep(m: Memory, headers: nat, n: nat, t: Exports, base: nat, s: seq<byte>, i: nat)
    requires i < t.count && ScanFile(m, headers, n, t, base, s, i).Some?
    ensures if FileNames(m, headers, n, t.names, i, s)
      then ExportedAt(m, t.funcs, t.ords, base, i, ScanFile(m, headers, n, t, base, s, i).value)
      else ScanFile(m, headers, n, t, base, s, i) == ScanFile(m, headers, n, t, base, s, i + 1)
  {
    hide Load, RvaToOff, StrEq, IsText;
    var rva := Load(m, t.names + 4 * i, 4).value;
    var off := RvaToOff(m, headers, n, rva).value;
    StrEqMeans(m, off, s);
  }

  /** A file exports `s` at `a`, from a base on: the export directory is at data directory 0, its
      counts and tables at 24, 28, 32 and 36, and `a` belongs to the first name that is the text; 0
      stands for a name that is not there. */
  ghost predicate FileExports(file: seq<byte>, base: nat, s: seq<byte>, a: nat) {
    var pe := Load(Blob(file), 60, 4);
    pe.Some?
    && var dir := Load(Blob(file), pe.value + 136, 4);
       dir.Some? && if dir.value == 0 then a == 0 else DirectoryExports(file, pe.value, dir.value, base, s, a)
  }

  ghost predicate DirectoryExports(file: seq<byte>, pe: nat, dir: nat, base: nat, s: seq<byte>, a: nat) {
    var m := Blob(file);
    var n, opt := Load(m, pe + 6, 2), Load(m, pe + 20, 2);
    && n.Some? && opt.Some?
    && var headers := pe + 24 + opt.value;
       var ed := RvaToOff(m, headers, n.value, dir);
       ed.Some? && (ed.value == 0 ==> a == 0)
       && (ed.value != 0 ==> TableExports(m, headers, n.value, ed.value, base, s, a))
  }

  ghost predicate TableExports(m: Memory, headers: nat, n: nat, ed: nat, base: nat, s: seq<byte>, a: nat) {
    var count, f, t, o := Load(m, ed + 24, 4), Load(m, ed + 28, 4), Load(m, ed + 32, 4), Load(m, ed + 36, 4);
    && count.Some? && f.Some? && t.Some? && o.Some?
    && var funcs, names, ords := RvaToOff(m, headers, n, f.value), RvaToOff(m, headers, n, t.value),
                                 RvaToOff(m, headers, n, o.value);
       && funcs.Some? && names.Some? && ords.Some?
       && if funcs.value == 0 || names.value == 0 || ords.value == 0 then a == 0
          else FirstExport(m, headers, n, Exports(count.value, funcs.value, names.value, ords.value), base, s, a)
  }

  /** `a` belongs to the first of the names that is the text, or is 0 and none of them is. */
  ghost predicate FirstExport(m: Memory, headers: nat, n: nat, t: Exports, base: nat, s: seq<byte>, a: nat) {
    || (a == 0 && forall k | 0 <= k < t.count :: !FileNames(m, headers, n, t.names, k, s))
    || exists k | 0 <= k < t.count :: FileNames(m, headers, n, t.names, k, s)
         && ExportedAt(m, t.funcs, t.ords, base, k, a)
         && forall j | 0 <= j < k :: !FileNames(m, headers, n, t.names, j, s)
  }

  lemma ScanIsFirst(m: Memory, headers: nat, n: nat, t: Exports, base: nat, s: seq<byte>)
    requires ScanFile(m, headers, n, t, base, s, 0).Some?
    ensures FirstExport(m, headers, n, t, base, s, ScanFile(m, headers, n, t, base, s, 0).value)
  {
    hide ScanFile, FileNames, ExportedAt;
    ScanFileMeans(m, headers, n, t, base, s, 0);
  }

  /** FindExport gives the address of the first export with the name, and 0 if there is none. */
  lemma FindExportMeans(file: seq<byte>, base: nat, s: seq<byte>)
    requires FindExport(file, base, s).Some?
    ensures FileExports(file, base, s, FindExport(file, base, s).value)
  {
    hide Load, RvaToOff, ScanFile, TableExports;
    var m := Blob(file);
    var pe := Load(m, 60, 4).value;
    var dir := Load(m, pe + 136, 4).value;
    if dir != 0 {
      var n, headers := Load(m, pe + 6, 2).value, pe + 24 + Load(m, pe + 20, 2).value;
      FindInMeans(m, headers, n, dir, base, s);
    }
  }

  lemma FindInMeans(m: Memory, headers: nat, n: nat, dir: nat, base: nat, s: seq<byte>)
    requires FindIn(m, headers, n, dir, base, s).Some?
    ensures var a, ed := FindIn(m, headers, n, dir, base, s).value, RvaToOff(m, headers, n, dir);
      && ed.Some? && (ed.value == 0 ==> a == 0)
      && (ed.value != 0 ==> TableExports(m, headers, n, ed.value, base, s, a))
  {
    hide Load, RvaToOff, ScanFile, FirstExport;
    var ed := RvaToOff(m, headers, n, dir).value;
    if ed != 0 {
      var t := ExportsAt(m, ed).value;
      var funcs, names, ords := RvaToOff(m, headers, n, t.funcs).value, RvaToOff(m, headers, n, t.names).value,
        RvaToOff(m, headers, n, t.ords).value;
      if funcs != 0 && names != 0 && ords != 0 {
        ScanIsFirst(m, headers, n, Exports(t.count, funcs, names, ords), base, s);
      }
    }
  }

  /** Entry `i` of the name pointer table of a mapped image leads to the text. */
  ghost predicate ImageNames(m: Memory, names: nat, i: nat, s: seq<byte>) {
    var rva := Load(m, names + 4 * i, 4);
    rva.Some? && IsText(m, rva.value, s)
  }

  lemma ScanImageStep(m: Memory, t: Exports, base: nat, s: seq<byte>, i: nat)
    requires i < t.count && ScanImage(m, t, base, s, i).Some?
    ensures if ImageNames(m, t.names, i, s)
      then ExportedAt(m, t.funcs, t.ords, base, i, ScanImage(m, t, base, s, i).value)
      else ScanImage(m, t, base, s, i) == ScanImage(m, t, base, s, i + 1)
  {
    hide Load, StrEq, IsText;
    StrEqMeans(m, Load(m, t.names + 4 * i, 4).value, s);
  }

  lemma {:induction false} ScanImageMeans(m: Memory, t: Exports, base: nat, s: seq<byte>, i: nat)
    requires ScanImage(m, t, base, s, i).Some?
    ensures var a := ScanImage(m, t, base, s, i).value;
      || (a == 0 && forall k | i <= k < t.count :: !ImageNames(m, t.names, k, s))
      || exists k | i <= k < t.count :: ImageNames(m, t.names, k, s) && ExportedAt(m, t.funcs, t.ords, base, k, a)
                                        && forall j | i <= j < k :: !ImageNames(m, t.names, j, s)
    decreases t.count - i
  {
    hide Load, StrEq, ImageNames, ExportedAt;
    if i < t.count {
      var a := ScanImage(m, t, base, s, i).value;
      ScanImageStep(m, t, base, s, i);
      if !ImageNames(m, t.names, i, s) { ScanImageMeans(m, t, base, s, i + 1); }
    }
  }

  /** A mapped image exports `s` at `a`: the same tables, addressed from the image's base. */
  ghost predicate ImageExports(m: Memory, base: nat, s: seq<byte>, a: nat) {
    var pe := Load(m, 60, 4);
    pe.Some?
    && var dir := Load(m, pe.value + 136, 4);
       dir.Some? && if dir.value == 0 then a == 0 else MappedExports(m, dir.value, base, s, a)
  }

  ghost predicate MappedExports(m: Memory, dir: nat, base: nat, s: seq<byte>, a: nat) {
    var count, f, t, o := Load(m, dir + 24, 4), Load(m, dir + 28, 4), Load(m, dir + 32, 4), Load(m, dir + 36, 4);
    && count.Some? && f.Some? && t.Some? && o.Some?
    && (|| (a == 0 && forall k | 0 <= k < count.value :: !ImageNames(m, t.value, k, s))
        || exists k | 0 <= k < count.value :: ImageNames(m, t.value, k, s)
             && ExportedAt(m, f.value, o.value, base, k, a)
             && forall j | 0 <= j < k :: !ImageNames(m, t.value, j, s))
  }

  /** GetProcAddress gives the address of the first export with the name, and 0 if there is none. */
  lemma GetProcAddressMeans(m: Memory, base: nat, s: seq<byte>)
    requires GetProcAddress(m, base, s).Some?
    ensures ImageExports(m, base, s, GetProcAddress(m, base, s).value)
  {
    hide Load, ScanImage, ImageNames, ExportedAt;
    var pe := Load(m, 60, 4).value;
    var dir := Load(m, pe + 136, 4).value;
    if dir != 0 { ScanImageMeans(m, ExportsAt(m, dir).value, base, s, 0); }
  }

  // ---- Imports ---------------------------------------------------------------------------------------

  /** The descriptor at an offset is not the last one: its Name at 12 or its FirstThunk at 16 is not 0. */
  ghost predicate LiveAt(file: seq<byte>, off: nat) {
    var m := Blob(file);
    var ints, name, iat := Load(m, off, 4), Load(m, off + 12, 4), Load(m, off + 16, 4);
    ints.Some? && name.Some? && iat.Some? && !(name.value == 0 && iat.value == 0)
  }

  /** The descriptor at an offset names module `j` of the registry, the first one of that name, and its
      lookup table, or its address table if it has none, is at `ints`. */
  ghost predicate NamesModule(file: seq<byte>, l: Layout, mods: seq<Module>, off: nat, j: nat, ints: nat) {
    var m := Blob(file);
    var lookup, name, iat := Load(m, off, 4), Load(m, off + 12, 4), Load(m, off + 16, 4);
    && lookup.Some? && name.Some? && iat.Some? && j < |mods|
    && var dll, table := Off(file, l, name.value), Off(file, l, if lookup.value != 0 then lookup.value else iat.value);
       && dll.Some? && dll.value != 0 && table == Some(ints) && ints != 0
       && IsText(m, dll.value, mods[j].name + [0])
       && forall i | 0 <= i < j :: !IsText(m, dll.value, mods[i].name + [0])
  }

  /** Lookup entry `slot` is there and imports by name: bit 63 is clear, and a hint of two bytes comes
      before the text at `hint`. */
  ghost predicate ImportsByName(file: seq<byte>, l: Layout, ints: nat, slot: nat, hint: nat) {
    var thunk := Load(Blob(file), ints + 8 * slot, 8);
    thunk.Some? && thunk.value < 0x8000_0000_0000_0000 && hint != 0 && Off(file, l, thunk.value % TWO32) == Some(hint)
  }

  /** No lookup entry up to `slot` is zero. */
  ghost predicate NoneEnds(file: seq<byte>, ints: nat, slot: nat) {
    forall t: nat | t <= slot :: Load(Blob(file), ints + 8 * t, 8) != Some(0)
  }

  lemma {:induction false} FindModuleFinds(mods: seq<Module>, file: seq<byte>, off: nat, j: nat)
    requires FindModule(mods, file, off).Some? && j < |mods| && IsText(Blob(file), off, mods[j].name + [0])
    requires forall i | 0 <= i < j :: !IsText(Blob(file), off, mods[i].name + [0])
    ensures FindModule(mods, file, off) == Some(Some(mods[j]))
    decreases j
  {
    hide StrEq, IsText;
    StrEqMeans(Blob(file), off, mods[0].name + [0]);
    if j > 0 { FindModuleFinds(mods[1..], file, off, j - 1); }
  }

  lemma ThunkIs(file: seq<byte>, ints: nat, slot: nat)
    ensures Thunk(file, ints, slot) == Load(Blob(file), ints + 8 * slot, 8)
  {
    hide Load;
  }

  lemma LiveIs(file: seq<byte>, off: nat)
    ensures Live(file, off) <==> LiveAt(file, off)
    ensures Live(file, off) ==> var d := DescriptorAt(file, off).value;
      d.ints == Load(Blob(file), off, 4).value && d.name == Load(Blob(file), off + 12, 4).value
        && d.iat == Load(Blob(file), off + 16, 4).value
  {
    hide Load;
  }

  lemma NamesIs(file: seq<byte>, l: Layout, mods: seq<Module>, start: nat, k: nat, j: nat, ints: nat)
    requires Descriptors(file, l, mods, start).1 == Success && Reached(file, start, k)
    requires NamesModule(file, l, mods, start + 20 * k, j, ints)
    ensures Live(file, start + 20 * k)
    ensures Names(file, l, mods, DescriptorAt(file, start + 20 * k).value, mods[j], ints)
  {
    hide Load, Off, Descriptors, FindModule, Thunks, IsText, DescriptorAt, Terminates;
    var off := start + 20 * k;
    DescriptorDone(file, l, mods, start, k);
    LiveIs(file, off);
    FindModuleFinds(mods, file, Off(file, l, DescriptorAt(file, off).value.name).value, j);
  }

  /** After a successful load of an image with aligned, disjoint import slots, the slot of an import by
      name holds what the first registered module of the descriptor's name exports under the text. */
  lemma LoadedImportsMean(vm: Vm, laid: Ram, now: Ram, root: Frame, base: nat, file: seq<byte>, l: Layout,
                          mods: seq<Module>, off: nat, k: nat, j: nat, ints: nat, slot: nat, hint: nat)
    requires Loaded(vm, laid, now, root, base, file, l, mods) && base % 4096 == 0
    requires PlacesOk(Wanted(file, l, mods).0, ImageOf(file, l.secs, |l.secs|).Keys)
    requires Load(Blob(file), l.pe + 144, 4).Some? && Load(Blob(file), l.pe + 144, 4).value != 0 && off != 0
    requires Off(file, l, Load(Blob(file), l.pe + 144, 4).value) == Some(off)
    requires forall d: nat | d <= k :: LiveAt(file, off + 20 * d)
    requires NamesModule(file, l, mods, off + 20 * k, j, ints)
    requires NoneEnds(file, ints, slot) && ImportsByName(file, l, ints, slot, hint)
    ensures var iat := Load(Blob(file), off + 20 * k + 16, 4);
      && iat.Some? && j < |mods|
      && var a := Load(Space(vm.mem, root, now, base), iat.value + 8 * slot, 8);
         && a.Some? && a.value != 0
         && FileExports(mods[j].file, mods[j].base, if hint + 2 <= |file| then file[hint + 2..] else [], a.value)
  {
    hide ImageHere, ImageOf, HasLayout, FindExport, Apply, PlacesOk, Load, Off, OwnBytes, DescriptorAt, Names, Sees,
      BitsHere, BitsOf, FileExports, Descriptors, NamesModule, Thunk;
    forall d: nat | d <= k ensures Live(file, off + 20 * d) {
      LiveIs(file, off + 20 * d);
      assert LiveAt(file, off + 20 * d);
    }
    NamesIs(file, l, mods, off, k, j, ints);
    LiveIs(file, off + 20 * k);
    forall t: nat { ThunkIs(file, ints, t); }
    var s := From(file, hint + 2);
    assert j < |mods| by { NamesAModule(file, l, mods, off + 20 * k, j, ints); }
    LoadedImports(vm, laid, now, root, base, file, l, mods, off, k, mods[j], ints, slot, s);
    FindExportMeans(mods[j].file, mods[j].base, s);
  }

  lemma NamesAModule(file: seq<byte>, l: Layout, mods: seq<Module>, off: nat, j: nat, ints: nat)
    requires NamesModule(file, l, mods, off, j, ints)
    ensures j < |mods|
  {}

  /** And GetProcAddress in the process gives what the file exports. */
  lemma LoadedExportsMean(vm: Vm, laid: Ram, now: Ram, root: Frame, base: nat, file: seq<byte>, l: Layout,
                          mods: seq<Module>, s: seq<byte>)
    requires Loaded(vm, laid, now, root, base, file, l, mods) && base % 4096 == 0 && Placed(file, l)
    requires PlacesOk(Wanted(file, l, mods).0, ImageOf(file, l.secs, |l.secs|).Keys)
    requires ExportsOk(file, l, Dirty(Wanted(file, l, mods).0)) && Terminated(s)
    ensures var a := GetProcAddress(Space(vm.mem, root, now, base), base, s);
      a.Some? && FileExports(file, base, s, a.value)
  {
    hide Loaded, Wanted, ImageOf, Placed, ExportsOk, GetProcAddress, FindExport, PlacesOk, Dirty, Terminated,
      FileExports;
    LoadedResolves(vm, laid, now, root, base, file, l, mods, s);
    FindExportMeans(file, base, s);
  }

  // ---- Headers -----------------------------------------------------------------------------------------

  /** What a file must begin with: "MZ", and at the offset given at 60 "PE", AMD64 and PE32+; the optional
      header reaches the preferred base. */
  ghost predicate GoodHeaders(file: seq<byte>) {
    var m, pe := Blob(file), Load(Blob(file), 60, 4);
    && |file| >= 64 && file[..2] == [0x4D, 0x5A] && pe.Some?
    && Byte(m, pe.value) == Some(0x50) && Byte(m, pe.value + 1) == Some(0x45)
    && Load(m, pe.value + 4, 2) == Some(0x8664) && Load(m, pe.value + 24, 2) == Some(0x20B)
    && Load(m, pe.value + 40, 4).Some? && Load(m, pe.value + 48, 8).Some?
  }

  /** LoadPe goes on exactly with such files, and the entry point is AddressOfEntryPoint, at 40. */
  lemma HeadersMean(file: seq<byte>)
    ensures CheckHeaders(file).0 == Success <==> GoodHeaders(file)
    ensures GoodHeaders(file) ==> Load(Blob(file), Load(Blob(file), 60, 4).value + 40, 4) == Some(CheckHeaders(file).1)
    ensures CheckHeaders(file).0 == InvalidParameter <==> |file| < 64
  {
    hide Load, Byte;
    if |file| >= 64 { assert file[..2] == [file[0], file[1]]; }
  }
}
