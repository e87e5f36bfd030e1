/** The FAT32 partition builder (tools/mkdisk.py, build_fat32_part), and the proof that a FAT reader
    gets back every file that went in. */
module Fat32Spec {
  import opened Wrappers
  import opened ByteBuffers
  import opened FatReader
  import opened FatDirectories

  const S: nat := 512
  const RES: nat := 32
  const NF: nat := 2
  const MASK28: nat := 0x1000_0000
  const EOC: nat := 0x0FFF_FFFF

  const CL_ROOT: nat := 2
  const CL_EFI: nat := 3
  const CL_EB: nat := 4
  const CL_BOOT: nat := 5
  const CL_BX: nat := 6

  /** An extra file for /boot/: the name and extension in upper case, and the contents. */
  datatype Extra = Extra(name: seq<byte>, ext: seq<byte>, data: seq<byte>)

  /** Clusters a file takes; an empty file takes one. */
  function Ncl(size: nat): (n: nat)
    ensures n >= 1 && size <= n * S && (n == 1 || n * S < size + S)
  {
    if (size + S - 1) / S == 0 then 1 else (size + S - 1) / S
  }

  /** The first cluster of file `k` when files are placed one after the other. */
  function First(files: seq<seq<byte>>, k: nat): (cl: nat)
    requires k <= |files|
    ensures cl >= CL_BX
  {
    if k == 0 then CL_BX else First(files, k - 1) + Ncl(|files[k - 1]|)
  }

  /** Files occupy disjoint clusters, none of them a directory's. */
  lemma {:induction false} FilesApart(files: seq<seq<byte>>, j: nat, k: nat)
    requires j < k <= |files|
    ensures CL_BX <= First(files, j) && First(files, j) + Ncl(|files[j]|) <= First(files, k)
    decreases k
  {
    if j < k - 1 { FilesApart(files, j, k - 1); }
  }

  function DataStart(fatSec: nat): nat { RES + NF * fatSec }

  /** Where a cluster begins in the partition. */
  function Clo(fatSec: nat, cl: nat): nat
    requires cl >= 2
  {
    (DataStart(fatSec) + (cl - 2)) * S
  }

  /** The partition has room for the tables, the directories and the bytes of every file. */
  ghost predicate Fits(ps: nat, fatSec: nat, files: seq<seq<byte>>) {
    fatSec >= 1 && DataStart(fatSec) + 4 <= ps && forall k | 0 <= k < |files| :: FileFits(ps, fatSec, files, k)
  }

  predicate FileFits(ps: nat, fatSec: nat, files: seq<seq<byte>>, k: nat)
    requires k < |files|
  {
    files[k] == [] || Clo(fatSec, First(files, k)) + |files[k]| <= ps * S
  }

  /** The table has an entry for every cluster that file `k` needs. */
  predicate InTable(fatSec: nat, files: seq<seq<byte>>, k: nat)
    requires k < |files|
  {
    files[k] == [] || First(files, k) + Ncl(|files[k]|) <= fatSec * 128
  }

  /** What a reader can give back of file `k`. */
  function Readable(fatSec: nat, files: seq<seq<byte>>, k: nat): Option<seq<byte>>
    requires k < |files|
  {
    if InTable(fatSec, files, k) then Some(files[k]) else None
  }

  /** Cluster numbers stay below those that end a chain. */
  predicate Numbered(files: seq<seq<byte>>) { First(files, |files|) < 0x0FFF_FFF8 }

  // ---- The table --------------------------------------------------------------------------

  function Entry(fat: seq<byte>, cl: nat): nat
    requires 4 * cl + 4 <= |fat|
  {
    U32(fat, 4 * cl) % MASK28
  }

  /** What cluster `i` of the `n` clusters from `first` is linked to. */
  function Link(first: nat, n: nat, i: nat): nat { if i + 1 == first + n then EOC else (i + 1) % MASK28 }

  /** The clusters are linked in order, as far as the table goes. */
  ghost predicate Chained(fat: seq<byte>, first: nat, n: nat) {
    n >= 1 && forall i | first <= i < first + n && 4 * i + 4 <= |fat| :: Entry(fat, i) == Link(first, n, i)
  }

  /** Entries outside `first .. first + n` are the same. */
  ghost predicate SameEntries(was: seq<byte>, now: seq<byte>, first: nat, n: nat) {
    |was| == |now| && forall i: nat | 4 * i + 4 <= |was| && !(first <= i < first + n) :: Entry(now, i) == Entry(was, i)
  }

  /** The table links the four directories and the first `k` files. */
  ghost predicate TableOk(fat: seq<byte>, files: seq<seq<byte>>, k: nat)
    requires k <= |files|
  {
    && |fat| >= 4 * CL_BX
    && (forall cl | CL_ROOT <= cl <= CL_BOOT :: Entry(fat, cl) == EOC)
    && (forall j | 0 <= j < k :: Chained(fat, First(files, j), Ncl(|files[j]|)))
  }

  /** The two reserved entries, and zeros from cluster `from` on. */
  ghost predicate RestFree(fat: seq<byte>, from: nat) {
    && |fat| >= 8 && Entry(fat, 0) == 0x0FFF_FFF8 && Entry(fat, 1) == 0x0FFF_FFFF
    && forall i: nat | i >= from && 4 * i + 4 <= |fat| :: Entry(fat, i) == 0
  }

  lemma SetEntry(fat: seq<byte>, cl: nat, val: nat)
    requires 4 * cl + 4 <= |fat|
    ensures Entry(Patched(fat, 4 * cl, Le32(val % MASK28)), cl) == val % MASK28
    ensures SameEntries(fat, Patched(fat, 4 * cl, Le32(val % MASK28)), cl, 1)
  {
    var r := Patched(fat, 4 * cl, Le32(val % MASK28));
    PatchedAt(fat, 4 * cl, Le32(val % MASK28));
    AtU32(r, 4 * cl, val % MASK28);
    forall i: nat | 4 * i + 4 <= |fat| && i != cl ensures Entry(r, i) == Entry(fat, i) {
      assert forall k | 4 * i <= k < 4 * i + 4 :: r[k] == fat[k];
    }
  }

  lemma {:induction false} TableKept(was: seq<byte>, now: seq<byte>, files: seq<seq<byte>>, k: nat, n: nat)
    requires k <= |files| && TableOk(was, files, k) && SameEntries(was, now, First(files, k), n)
    ensures TableOk(now, files, k)
  {
    hide Entry, Chained, First, Ncl;
    forall j | 0 <= j < k ensures Chained(now, First(files, j), Ncl(|files[j]|)) {
      FilesApart(files, j, k);
      assert Chained(was, First(files, j), Ncl(|files[j]|));
      ChainKept(was, now, First(files, j), Ncl(|files[j]|), First(files, k), n);
    }
  }

  lemma ChainKept(was: seq<byte>, now: seq<byte>, first: nat, m: nat, from: nat, n: nat)
    requires Chained(was, first, m) && SameEntries(was, now, from, n) && first + m <= from
    ensures Chained(now, first, m)
  {
    hide Entry;
  }

  // ---- Directories --------------------------------------------------------------------------

  function RootEntries(efi: nat, boot: nat): (es: seq<seq<byte>>)
    ensures |es| == 4 && forall e | e in es :: |e| == ENTRY
  {
    Dots(CL_ROOT, 0) + [De(EfiName(), BlankName(), efi, 0, ADIR), De(BootName(), BlankName(), boot, 0, ADIR)]
  }

  function EfiEntries(eb: nat): (es: seq<seq<byte>>)
    ensures |es| == 3 && forall e | e in es :: |e| == ENTRY
  {
    Dots(CL_EFI, CL_ROOT) + [De(BootName(), BlankName(), eb, 0, ADIR)]
  }

  function EfiBootEntries(size: nat): (es: seq<seq<byte>>)
    requires size < 0x1_0000_0000
    ensures |es| == 3 && forall e | e in es :: |e| == ENTRY
  {
    Dots(CL_EB, CL_EFI) + [De(Bootx64Name(), EfiName(), CL_BX, size, AFILE)]
  }

  function Datas(extras: seq<Extra>): (fs: seq<seq<byte>>)
    ensures |fs| == |extras| && forall k | 0 <= k < |extras| :: fs[k] == extras[k].data
    decreases |extras|
  {
    if extras == [] then [] else Datas(extras[..|extras| - 1]) + [extras[|extras| - 1].data]
  }

  /** The contents of all files, in the order of their clusters. */
  function Contents(bootx64: seq<byte>, kernel: seq<byte>, extras: seq<Extra>): (fs: seq<seq<byte>>)
    ensures |fs| == 2 + |extras|
  {
    [bootx64, kernel] + Datas(extras)
  }

  predicate Small(files: seq<seq<byte>>) { forall k | 0 <= k < |files| :: |files[k]| < 0x1_0000_0000 }

  /** The entry of extra file `k`. */
  function ExtraEntry(files: seq<seq<byte>>, extras: seq<Extra>, k: nat): (e: seq<byte>)
    requires |files| == 2 + |extras| && k < |extras| && |files[2 + k]| < 0x1_0000_0000
    ensures |e| == ENTRY
  {
    De(extras[k].name, extras[k].ext, First(files, 2 + k), |files[2 + k]|, AFILE)
  }

  const MAX_EXTRA: nat := 13

  function Listed(extras: seq<Extra>): nat { if |extras| < MAX_EXTRA then |extras| else MAX_EXTRA }

  /** /boot/ lists the kernel and the first `n` extra files. */
  function BootEntries(files: seq<seq<byte>>, extras: seq<Extra>, n: nat): (es: seq<seq<byte>>)
    requires |files| == 2 + |extras| && n <= |extras| && Small(files)
    ensures |es| == 3 + n
    ensures forall e | e in es :: |e| == ENTRY
  {
    if n == 0 then Dots(CL_BOOT, CL_ROOT) + [De(MicrontName(), ElfName(), First(files, 1), |files[1]|, AFILE)]
    else BootEntries(files, extras, n - 1) + [ExtraEntry(files, extras, n - 1)]
  }

  lemma {:induction false} BootEntryAt(files: seq<seq<byte>>, extras: seq<Extra>, n: nat, k: nat)
    requires |files| == 2 + |extras| && k < n <= |extras| && Small(files)
    ensures BootEntries(files, extras, n)[3 + k] == ExtraEntry(files, extras, k)
    decreases n
  {
    hide De, ExtraEntry, Dots;
    if k < n - 1 { BootEntryAt(files, extras, n - 1, k); }
  }

  lemma {:induction false} BootEntriesFirst(files: seq<seq<byte>>, extras: seq<Extra>, n: nat)
    requires |files| == 2 + |extras| && n <= |extras| && Small(files)
    ensures BootEntries(files, extras, n)[..3] == BootEntries(files, extras, 0)
    decreases n
  {
    hide De, ExtraEntry, Dots;
    if n > 0 { BootEntriesFirst(files, extras, n - 1); }
  }

  function RootDirectory(efi: nat, boot: nat): (d: seq<byte>)
    ensures |d| == S
  {
    Directory(RootEntries(efi, boot), S)
  }

  function EfiDirectory(eb: nat): (d: seq<byte>)
    ensures |d| == S
  {
    Directory(EfiEntries(eb), S)
  }

  function EfiBootDirectory(size: nat): (d: seq<byte>)
    requires size < 0x1_0000_0000
    ensures |d| == S
  {
    Directory(EfiBootEntries(size), S)
  }

  function BootDirectory(files: seq<seq<byte>>, extras: seq<Extra>): (d: seq<byte>)
    requires |files| == 2 + |extras| && Small(files)
    ensures |d| == S
  {
    Directory(BootEntries(files, extras, Listed(extras)), S)
  }

  // ---- The image ----------------------------------------------------------------------------------

  /** BPB_BytsPerSec, BPB_SecPerClus, BPB_RsvdSecCnt and BPB_NumFATs, at offset 11. */
  function Geometry(reserved: nat): (g: seq<byte>)
    requires reserved < 0x1_0000
    ensures |g| == 6
  {
    Le16(S) + [1] + Le16(reserved) + [NF]
  }

  /** BPB_SecPerTrk, BPB_NumHeads, BPB_HiddSec, BPB_TotSec32 and BPB_FATSz32, at offset 24. */
  function Sizes(ps: nat, hidden: nat, fatSec: nat): (z: seq<byte>)
    requires ps < 0x1_0000_0000 && hidden < 0x1_0000_0000 && fatSec < 0x1_0000_0000
    ensures |z| == 16
  {
    Le16(63) + Le16(255) + Le32(hidden) + Le32(ps) + Le32(fatSec)
  }

  /** All fields of the boot sector; adjacent ones are written together. */
  function BootFields(ps: nat, hidden: nat, fatSec: nat): seq<Field>
    requires ps < 0x1_0000_0000 && hidden < 0x1_0000_0000 && fatSec < 0x1_0000_0000
  {
    [Field(0, [0xEB, 0x58, 0x90, 0x4D, 0x53, 0x57, 0x49, 0x4E, 0x34, 0x2E, 0x31]), Field(11, Geometry(RES)),
     Field(21, [0xF8]), Field(24, Sizes(ps, hidden, fatSec)), Field(44, Le32(CL_ROOT)), Field(48, Le16(1) + Le16(6)),
     Field(64, [0x80]), Field(66, [0x29] + Le32(0x4E54_4D52)),
     Field(71, [0x4D, 0x49, 0x43, 0x52, 0x4F, 0x4E, 0x54, 0x2D, 0x45, 0x46, 0x49,
                0x46, 0x41, 0x54, 0x33, 0x32, 0x20, 0x20, 0x20]),
     Field(510, [0x55, 0xAA])]
  }

  /** All fields of the FSInfo sector; the counts of free clusters are not kept. */
  function InfoFields(unknown: nat): seq<Field>
    requires unknown < 0x1_0000_0000
  {
    [Field(0, Le32(0x4161_5252)), Field(484, Le32(0x6141_7272) + Le32(unknown) + Le32(unknown)),
     Field(508, Le32(0xAA55_0000))]
  }

  /** The fields of the boot sector that the reader uses. */
  ghost predicate BootSectorOk(bs: seq<byte>, ps: nat, fatSec: nat) {
    && |bs| == S && fatSec < 0x1_0000_0000
    && At(bs, 11, Le16(S)) && At(bs, 13, [1]) && At(bs, 14, Le16(RES)) && At(bs, 16, [NF])
    && At(bs, 36, Le32(fatSec)) && At(bs, 44, Le32(CL_ROOT)) && At(bs, 510, [0x55, 0xAA])
  }

  lemma GeometryParts()
    ensures |Geometry(RES)| == 6 && At(Geometry(RES), 0, Le16(S)) && At(Geometry(RES), 2, [1])
    ensures At(Geometry(RES), 3, Le16(RES)) && At(Geometry(RES), 5, [NF])
  {
    hide Le16;
  }

  lemma SizesParts(ps: nat, hidden: nat, fatSec: nat)
    requires ps < 0x1_0000_0000 && hidden < 0x1_0000_0000 && fatSec < 0x1_0000_0000
    ensures At(Sizes(ps, hidden, fatSec), 0, Le16(63)) && At(Sizes(ps, hidden, fatSec), 2, Le16(255))
    ensures At(Sizes(ps, hidden, fatSec), 4, Le32(hidden)) && At(Sizes(ps, hidden, fatSec), 8, Le32(ps))
    ensures At(Sizes(ps, hidden, fatSec), 12, Le32(fatSec))
  {
    hide Le16, Le32;
  }

  /** A boot sector with these fields has what the reader uses. */
  lemma BootFieldsOk(bs: seq<byte>, ps: nat, hidden: nat, fatSec: nat)
    requires ps < 0x1_0000_0000 && hidden < 0x1_0000_0000 && fatSec < 0x1_0000_0000 && |bs| == S
    requires Filled(bs, BootFields(ps, hidden, fatSec))
    ensures BootSectorOk(bs, ps, fatSec) && At(bs, 24, Le16(63)) && At(bs, 26, Le16(255))
    ensures At(bs, 28, Le32(hidden)) && At(bs, 32, Le32(ps))
  {
    hide Geometry, Sizes, Le16, Le32, At, Blank;
    var fs := BootFields(ps, hidden, fatSec);
    assert At(bs, fs[1].off, fs[1].data) && At(bs, fs[3].off, fs[3].data) && At(bs, fs[4].off, fs[4].data)
      && At(bs, fs[9].off, fs[9].data);
    GeometryParts();
    SizesParts(ps, hidden, fatSec);
    AtPart(bs, 11, Geometry(RES), 0, Le16(S));
    AtPart(bs, 11, Geometry(RES), 2, [1]);
    AtPart(bs, 11, Geometry(RES), 3, Le16(RES));
    AtPart(bs, 11, Geometry(RES), 5, [NF]);
    AtPart(bs, 24, Sizes(ps, hidden, fatSec), 0, Le16(63));
    AtPart(bs, 24, Sizes(ps, hidden, fatSec), 2, Le16(255));
    AtPart(bs, 24, Sizes(ps, hidden, fatSec), 4, Le32(hidden));
    AtPart(bs, 24, Sizes(ps, hidden, fatSec), 8, Le32(ps));
    AtPart(bs, 24, Sizes(ps, hidden, fatSec), 12, Le32(fatSec));
  }

  /** Two equal tables, linking the directories and the files. */
  ghost predicate TablesPlaced(img: seq<byte>, fatSec: nat, fat: seq<byte>, files: seq<seq<byte>>) {
    && |fat| == fatSec * S && TableOk(fat, files, |files|)
    && At(img, RES * S, fat) && At(img, RES * S + fatSec * S, fat)
  }

  ghost predicate DirectoriesPlaced(img: seq<byte>, fatSec: nat, files: seq<seq<byte>>, extras: seq<Extra>)
    requires |files| == 2 + |extras| && Small(files)
  {
    && At(img, Clo(fatSec, CL_ROOT), RootDirectory(CL_EFI, CL_BOOT))
    && At(img, Clo(fatSec, CL_EFI), EfiDirectory(CL_EB))
    && At(img, Clo(fatSec, CL_EB), EfiBootDirectory(|files[0]|))
    && At(img, Clo(fatSec, CL_BOOT), BootDirectory(files, extras))
  }

  ghost predicate FilesPlaced(img: seq<byte>, fatSec: nat, files: seq<seq<byte>>, n: nat)
    requires n <= |files|
  {
    forall k | 0 <= k < n && files[k] != [] :: At(img, Clo(fatSec, First(files, k)), files[k])
  }

  /** A partition that holds the files: its sectors, two equal tables, the directories, and the
      contents, each at its place. */
  ghost predicate Built(img: seq<byte>, ps: nat, fatSec: nat, bs: seq<byte>, fat: seq<byte>, files: seq<seq<byte>>,
                        extras: seq<Extra>)
    requires |files| == 2 + |extras| && Small(files)
  {
    && |img| == ps * S && BootSectorOk(bs, ps, fatSec) && At(img, 0, bs) && At(img, 6 * S, bs)
    && TablesPlaced(img, fatSec, fat, files) && DirectoriesPlaced(img, fatSec, files, extras)
    && FilesPlaced(img, fatSec, files, |files|)
  }

  /** The fields of the first `k` files; an empty file writes nothing. */
  ghost function FileFields(fatSec: nat, files: seq<seq<byte>>, k: nat): seq<Field>
    requires k <= |files|
  {
    if k == 0 then [] else FileFields(fatSec, files, k - 1) + FileField(fatSec, files, k - 1)
  }

  ghost function FileField(fatSec: nat, files: seq<seq<byte>>, k: nat): seq<Field>
    requires k < |files|
  {
    if files[k] == [] then [] else [Field(Clo(fatSec, First(files, k)), files[k])]
  }

  function ReservedParts(fatSec: nat, bs: seq<byte>, fsi: seq<byte>, fat: seq<byte>): seq<Field> {
    [Field(0, bs), Field(6 * S, bs), Field(S, fsi), Field(RES * S, fat), Field(RES * S + fatSec * S, fat)]
  }

  function DirectoryParts(fatSec: nat, files: seq<seq<byte>>, extras: seq<Extra>): seq<Field>
    requires |files| == 2 + |extras| && Small(files)
  {
    [Field(Clo(fatSec, CL_ROOT), RootDirectory(CL_EFI, CL_BOOT)), Field(Clo(fatSec, CL_EFI), EfiDirectory(CL_EB)),
     Field(Clo(fatSec, CL_EB), EfiBootDirectory(|files[0]|)), Field(Clo(fatSec, CL_BOOT), BootDirectory(files, extras))]
  }

  /** Everything that is put on the partition. */
  ghost function Parts(fatSec: nat, bs: seq<byte>, fsi: seq<byte>, fat: seq<byte>, files: seq<seq<byte>>,
                       extras: seq<Extra>): seq<Field>
    requires |files| == 2 + |extras| && Small(files)
  {
    ReservedParts(fatSec, bs, fsi, fat) + DirectoryParts(fatSec, files, extras) + FileFields(fatSec, files, |files|)
  }

  /** What the partition, its sectors and its table consist of, to the last byte: every other byte is zero,
      and every other cluster is free. */
  ghost predicate Complete(img: seq<byte>, ps: nat, hidden: nat, fatSec: nat, bs: seq<byte>, fsi: seq<byte>,
                           fat: seq<byte>, files: seq<seq<byte>>, extras: seq<Extra>)
    requires |files| == 2 + |extras| && Small(files)
    requires ps < 0x1_0000_0000 && hidden < 0x1_0000_0000 && fatSec < 0x1_0000_0000
  {
    && |bs| == S && Filled(bs, BootFields(ps, hidden, fatSec))
    && |fsi| == S && Filled(fsi, InfoFields(0xFFFF_FFFF))
    && RestFree(fat, First(files, |files|)) && Filled(img, Parts(fatSec, bs, fsi, fat, files, extras))
  }
}
