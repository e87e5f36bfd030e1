/** Reading a built FAT32 partition back. */
module Fat32RoundTrip {
  import opened Wrappers
  import opened ByteBuffers
  import opened FatReader
  import opened FatDirectories
  import opened Fat32Spec
  import opened Fat32Tables

  // ---- The reader's view --------------------------------------------------------------------------

  /** The entries of a table at an offset. */
  function DecodeTable(img: seq<byte>, off: nat, n: nat): (fat: seq<nat>)
    requires off + 4 * n <= |img|
    ensures |fat| == n && forall i | 0 <= i < n :: fat[i] == TableEntry(img, off, n, i)
  {
    seq(n, i requires 0 <= i < n => TableEntry(img, off, n, i))
  }

  function TableEntry(img: seq<byte>, off: nat, n: nat, i: nat): nat
    requires off + 4 * n <= |img| && i < n
  {
    U32(img, off + 4 * i) % MASK28
  }

  /** Mounts a FAT32 partition with 512-byte sectors from its boot sector and first table. */
  function Mount32(img: seq<byte>): Option<Volume> {
    if |img| < S || U16(img, 11) != S then None else
    MountAt(img, img[13], U16(img, 14), Times(img[16], U32(img, 36)), U32(img, 36), U32(img, 44))
  }

  function MountAt(img: seq<byte>, perCluster: nat, reserved: nat, allTables: nat, fatSec: nat,
                   rootCluster: nat): Option<Volume> {
    if (reserved + fatSec) * S > |img| || (reserved + allTables) * S > |img| then None else
    var v := Volume(DecodeTable(img, reserved * S, fatSec * 128), img[(reserved + allTables) * S..], perCluster * S,
                    0x0FFF_FFF8, []);
    match Chain(v, rootCluster)
    case None => None
    case Some(root) => Some(v.(root := root))
  }

  /** The volume the reader should see. */
  ghost predicate Sees(v: Volume, img: seq<byte>, fatSec: nat, fat: seq<byte>)
    requires |fat| == fatSec * S && DataStart(fatSec) * S <= |img|
  {
    && v.clusterSize == S && v.eoc == 0x0FFF_FFF8 && v.area == img[DataStart(fatSec) * S..]
    && |v.fat| == fatSec * 128 && forall i | 0 <= i < |v.fat| :: v.fat[i] == Entry(fat, i)
  }

  lemma CloIsOffset(fatSec: nat, cl: nat)
    requires cl >= 2
    ensures Clo(fatSec, cl) == DataStart(fatSec) * S + Offset(cl, S)
  {}

  lemma InArea(v: Volume, img: seq<byte>, fatSec: nat, fat: seq<byte>, cl: nat, data: seq<byte>)
    requires |fat| == fatSec * S && DataStart(fatSec) * S <= |img| && Sees(v, img, fatSec, fat)
    requires cl >= 2 && At(img, Clo(fatSec, cl), data)
    ensures At(v.area, Offset(cl, S), data)
  {
    CloIsOffset(fatSec, cl);
    var base := DataStart(fatSec) * S;
    hide Offset, Clo;
    var a := Offset(cl, S);
    forall i | 0 <= i < |data| ensures v.area[a + i] == data[i] {
      AtByte(img, Clo(fatSec, cl), data, i);
      assert v.area[a + i] == img[base + (a + i)];
    }
  }

  /** The chain of a directory is its one cluster. */
  lemma ReadsDirectory(v: Volume, img: seq<byte>, fatSec: nat, fat: seq<byte>, cl: nat, d: seq<byte>)
    requires |fat| == fatSec * S && DataStart(fatSec) * S <= |img| && Sees(v, img, fatSec, fat)
    requires |d| == S && CL_ROOT <= cl <= CL_BOOT && 4 * cl + 4 <= |fat| && Entry(fat, cl) == EOC
    requires At(img, Clo(fatSec, cl), d)
    ensures Chain(v, cl) == Some(d)
  {
    hide Clo, Entry;
    InArea(v, img, fatSec, fat, cl, d);
    OffsetStep(cl, S);
    hide Offset;
    assert Linked(v.fat, v.eoc, cl, 1);
    LinkedReads(v, cl, 1, |v.fat|);
    AtSlice(v.area, Offset(cl, S), d);
  }

  /** A file is read back exactly if the table goes as far as its clusters. */
  lemma ReadsFile(v: Volume, img: seq<byte>, ps: nat, fatSec: nat, fat: seq<byte>, files: seq<seq<byte>>, k: nat,
                  dir: seq<byte>, off: nat, n8: seq<byte>, e3: seq<byte>)
    requires |fat| == fatSec * S && DataStart(fatSec) * S <= |img| == ps * S && Sees(v, img, fatSec, fat)
    requires TableOk(fat, files, |files|) && Numbered(files) && k < |files| && |files[k]| < 0x1_0000_0000
    requires At(dir, off, De(n8, e3, First(files, k), |files[k]|, AFILE))
    requires FileFits(ps, fatSec, files, k)
    requires files[k] != [] ==> At(img, Clo(fatSec, First(files, k)), files[k])
    ensures off + ENTRY <= |dir| && ReadFile(v, dir, off) == Readable(fatSec, files, k)
  {
    hide De, FirstCluster, U32, Ncl, First, At, Offset, Clo, Linked, Chained, Entry, ReadFile, Chain;
    FilesApart(files, k, |files|);
    var first, n := First(files, k), Ncl(|files[k]|);
    DeFields(dir, off, n8, e3, first, |files[k]|, AFILE);
    if files[k] != [] {
      InArea(v, img, fatSec, fat, first, files[k]);
      if first + n <= fatSec * 128 {
        ChainIsLinked(v, img, fatSec, fat, first, n);
        WholeClusters(ps, fatSec, first, files[k]);
        CloIsOffset(fatSec, first + n);
      } else {
        ChainIsCut(v, img, fatSec, fat, first, n);
        NoChain(v, dir, off, first);
      }
    }
    if InTable(fatSec, files, k) { LinkedFile(v, dir, off, first, n, files[k]); }
  }

  lemma NoChain(v: Volume, dir: seq<byte>, off: nat, first: nat)
    requires off + ENTRY <= |dir| && FirstCluster(dir, off) == first && U32(dir, off + 28) != 0
    requires Chain(v, first) == None
    ensures ReadFile(v, dir, off) == None
  {
    hide FirstCluster, U32, Chain;
  }

  /** A partition is whole clusters from the data area on. */
  lemma WholeClusters(ps: nat, fatSec: nat, first: nat, data: seq<byte>)
    requires first >= 2 && data != [] && Clo(fatSec, first) + |data| <= ps * S
    ensures Clo(fatSec, first + Ncl(|data|)) <= ps * S
  {}

  lemma CloMonotone(fatSec: nat, a: nat, b: nat)
    requires 2 <= a <= b
    ensures Clo(fatSec, a) <= Clo(fatSec, b)
  {}

  lemma ChainIsLinked(v: Volume, img: seq<byte>, fatSec: nat, fat: seq<byte>, first: nat, n: nat)
    requires |fat| == fatSec * S && DataStart(fatSec) * S <= |img| && Sees(v, img, fatSec, fat)
    requires first >= 2 && Chained(fat, first, n) && first + n < 0x0FFF_FFF8 && first + n <= fatSec * 128
    ensures Linked(v.fat, v.eoc, first, n)
  {
    hide Entry;
  }

  lemma ChainIsCut(v: Volume, img: seq<byte>, fatSec: nat, fat: seq<byte>, first: nat, n: nat)
    requires |fat| == fatSec * S && DataStart(fatSec) * S <= |img| && Sees(v, img, fatSec, fat)
    requires Chained(fat, first, n) && fatSec * 128 < first + n < 0x0FFF_FFF8
    ensures Chain(v, first) == None
  {
    hide Entry, ReadChain;
    UnlinkedStops(v, first, |v.fat|);
  }

  /** What mounting a built partition gives. */
  lemma Mounts(img: seq<byte>, ps: nat, fatSec: nat, bs: seq<byte>, fat: seq<byte>, files: seq<seq<byte>>,
               extras: seq<Extra>)
    requires |files| == 2 + |extras| && Small(files)
    requires Built(img, ps, fatSec, bs, fat, files, extras)
    ensures DataStart(fatSec) * S <= |img| && Mount32(img).Some? && Sees(Mount32(img).value, img, fatSec, fat)
    ensures Mount32(img).value.root == RootDirectory(CL_EFI, CL_BOOT)
  {
    hide BootSectorOk, RootDirectory, EfiDirectory, EfiBootDirectory, BootDirectory, TableOk, DirectoriesPlaced;
    hide FilesPlaced, U16, U32, Chain, Entry, Times, MountAt;
    ReadsBootFields(img, ps, fatSec, bs);
    DataFits(img, ps, fatSec, bs, fat, files, extras);
    assert Mount32(img) == MountAt(img, 1, RES, 2 * fatSec, fatSec, CL_ROOT);
    var v := Volume(DecodeTable(img, RES * S, fatSec * 128), img[DataStart(fatSec) * S..], S, 0x0FFF_FFF8, []);
    SeesTable(v, img, fatSec, fat);
    RootReads(v, img, ps, fatSec, bs, fat, files, extras);
    MountsWith(img, fatSec, v);
  }

  lemma MountsWith(img: seq<byte>, fatSec: nat, v: Volume)
    requires DataStart(fatSec) * S <= |img| && (RES + fatSec) * S <= |img|
    requires v == Volume(DecodeTable(img, RES * S, fatSec * 128), img[DataStart(fatSec) * S..], S, 0x0FFF_FFF8, [])
    requires Chain(v, CL_ROOT).Some?
    ensures MountAt(img, 1, RES, 2 * fatSec, fatSec, CL_ROOT) == Some(v.(root := Chain(v, CL_ROOT).value))
  {
    hide Chain, DecodeTable;
  }

  lemma DataFits(img: seq<byte>, ps: nat, fatSec: nat, bs: seq<byte>, fat: seq<byte>, files: seq<seq<byte>>,
                 extras: seq<Extra>)
    requires |files| == 2 + |extras| && Small(files) && Built(img, ps, fatSec, bs, fat, files, extras)
    ensures DataStart(fatSec) * S <= |img| && (RES + fatSec) * S <= |img| && S <= |img|
  {
    hide RootDirectory, EfiDirectory, EfiBootDirectory, BootDirectory, FilesPlaced, TableOk, BootSectorOk, Small;
  }

  lemma ReadsBootFields(img: seq<byte>, ps: nat, fatSec: nat, bs: seq<byte>)
    requires BootSectorOk(bs, ps, fatSec) && At(img, 0, bs)
    ensures |img| >= S && U16(img, 11) == S && img[13] == 1 && U16(img, 14) == RES && img[16] == NF
    ensures U32(img, 36) == fatSec && U32(img, 44) == CL_ROOT && Times(img[16], U32(img, 36)) == 2 * fatSec
  {
    hide Le16, Le32, U16, U32;
    AtPart(img, 0, bs, 11, Le16(S));
    AtPart(img, 0, bs, 13, [1]);
    AtPart(img, 0, bs, 14, Le16(RES));
    AtPart(img, 0, bs, 16, [NF]);
    AtPart(img, 0, bs, 36, Le32(fatSec));
    AtPart(img, 0, bs, 44, Le32(CL_ROOT));
    AtByte(img, 13, [1], 0);
    AtByte(img, 16, [NF], 0);
    AtU16(img, 11, S);
    AtU16(img, 14, RES);
    AtU32(img, 36, fatSec);
    AtU32(img, 44, CL_ROOT);
  }

  lemma SeesTable(v: Volume, img: seq<byte>, fatSec: nat, fat: seq<byte>)
    requires |fat| == fatSec * S && DataStart(fatSec) * S <= |img| && (RES + fatSec) * S <= |img|
    requires At(img, RES * S, fat)
    requires v.fat == DecodeTable(img, RES * S, fatSec * 128) && v.area == img[DataStart(fatSec) * S..]
    requires v.clusterSize == S && v.eoc == 0x0FFF_FFF8
    ensures Sees(v, img, fatSec, fat)
  {
    forall i | 0 <= i < |v.fat| ensures v.fat[i] == Entry(fat, i) {
      AtByte(img, RES * S, fat, 4 * i);
      AtByte(img, RES * S, fat, 4 * i + 1);
      AtByte(img, RES * S, fat, 4 * i + 2);
      AtByte(img, RES * S, fat, 4 * i + 3);
    }
  }

  lemma RootReads(v: Volume, img: seq<byte>, ps: nat, fatSec: nat, bs: seq<byte>, fat: seq<byte>,
                  files: seq<seq<byte>>, extras: seq<Extra>)
    requires |files| == 2 + |extras| && Small(files)
    requires Built(img, ps, fatSec, bs, fat, files, extras)
    requires DataStart(fatSec) * S <= |img| && Sees(v, img, fatSec, fat)
    ensures Chain(v, CL_ROOT) == Some(RootDirectory(CL_EFI, CL_BOOT))
    ensures Chain(v, CL_EFI) == Some(EfiDirectory(CL_EB))
    ensures Chain(v, CL_EB) == Some(EfiBootDirectory(|files[0]|))
    ensures Chain(v, CL_BOOT) == Some(BootDirectory(files, extras))
  {
    hide RootDirectory, EfiDirectory, EfiBootDirectory, BootDirectory, Chain, Clo, Sees, BootSectorOk, FilesPlaced;
    ReadsDirectory(v, img, fatSec, fat, CL_ROOT, RootDirectory(CL_EFI, CL_BOOT));
    ReadsDirectory(v, img, fatSec, fat, CL_EFI, EfiDirectory(CL_EB));
    ReadsDirectory(v, img, fatSec, fat, CL_EB, EfiBootDirectory(|files[0]|));
    ReadsDirectory(v, img, fatSec, fat, CL_BOOT, BootDirectory(files, extras));
  }

  // ---- Every file reads back ------------------------------------------------------------------------

  lemma RootHasBoot()
    ensures FindEntry(RootDirectory(CL_EFI, CL_BOOT), Name(BootName(), BlankName()), 0) == Some(ENTRY * 3)
  {
    var es, name := RootEntries(CL_EFI, CL_BOOT), Name(BootName(), BlankName());
    hide De, Name, Directory, FindEntry, Matches;
    NamesDiffer();
    DeMatches(EfiName(), BlankName(), CL_EFI, 0, ADIR, name);
    DeMatches(BootName(), BlankName(), CL_BOOT, 0, ADIR, name);
    DeMatches(DotName(), [0x20, 0x20], CL_ROOT, 0, ADIR, name);
    DeMatches(DotDotName(), [0x20], 0, 0, ADIR, name);
    FoundIn(es, S, name, 3);
  }

  /** An entry of a file, wherever it is, reads back as the file, exactly if the table goes so far. */
  lemma FileThere(v: Volume, img: seq<byte>, ps: nat, fatSec: nat, bs: seq<byte>, fat: seq<byte>,
                  files: seq<seq<byte>>, extras: seq<Extra>,
                  k: nat, dir: seq<byte>, off: nat, n8: seq<byte>, e3: seq<byte>)
    requires |files| == 2 + |extras| && Small(files) && Numbered(files) && k < |files|
    requires Built(img, ps, fatSec, bs, fat, files, extras)
    requires DataStart(fatSec) * S <= |img| && Sees(v, img, fatSec, fat)
    requires At(dir, off, De(n8, e3, First(files, k), |files[k]|, AFILE))
    ensures off + ENTRY <= |dir| && ReadFile(v, dir, off) == Readable(fatSec, files, k)
  {
    hide De, Sees, First, DirectoriesPlaced, TableOk, ReadFile, BootSectorOk, Readable, Numbered, Clo;
    ReadsFile(v, img, ps, fatSec, fat, files, k, dir, off, n8, e3);
  }

  /** The directories open as they were written. */
  ghost predicate Opens(v: Volume, files: seq<seq<byte>>, extras: seq<Extra>)
    requires |files| == 2 + |extras| && Small(files)
  {
    && v.root == RootDirectory(CL_EFI, CL_BOOT)
    && Chain(v, CL_EFI) == Some(EfiDirectory(CL_EB))
    && Chain(v, CL_EB) == Some(EfiBootDirectory(|files[0]|))
    && Chain(v, CL_BOOT) == Some(BootDirectory(files, extras))
  }

  lemma MountedOpens(img: seq<byte>, ps: nat, fatSec: nat, bs: seq<byte>, fat: seq<byte>, files: seq<seq<byte>>,
                     extras: seq<Extra>)
    requires |files| == 2 + |extras| && Small(files)
    requires Built(img, ps, fatSec, bs, fat, files, extras)
    ensures DataStart(fatSec) * S <= |img| && Mount32(img).Some? && Sees(Mount32(img).value, img, fatSec, fat)
    ensures Opens(Mount32(img).value, files, extras)
  {
    hide Built, Sees, Mount32, Chain, RootDirectory, EfiDirectory, EfiBootDirectory, BootDirectory;
    Mounts(img, ps, fatSec, bs, fat, files, extras);
    RootReads(Mount32(img).value, img, ps, fatSec, bs, fat, files, extras);
  }

  lemma RootToEfi(v: Volume, files: seq<seq<byte>>, extras: seq<Extra>, path: seq<seq<byte>>)
    requires |files| == 2 + |extras| && Small(files) && Opens(v, files, extras)
    requires |path| > 1 && path[0] == Name(EfiName(), BlankName())
    ensures ReadPath(v, RootDirectory(CL_EFI, CL_BOOT), path) == ReadPath(v, EfiDirectory(CL_EB), path[1..])
  {
    hide De, Name, Directory, FindEntry, Chain, ReadPath, EfiEntries, EfiBootDirectory, BootDirectory;
    NamesDiffer();
    ThirdFound(RootEntries(CL_EFI, CL_BOOT), S, CL_ROOT, 0, EfiName(), BlankName(), CL_EFI, 0, ADIR);
    PathStep(v, RootEntries(CL_EFI, CL_BOOT), S, 2, EfiName(), BlankName(), CL_EFI, path, EfiDirectory(CL_EB));
  }

  lemma RootToBoot(v: Volume, files: seq<seq<byte>>, extras: seq<Extra>, path: seq<seq<byte>>)
    requires |files| == 2 + |extras| && Small(files) && Opens(v, files, extras)
    requires |path| > 1 && path[0] == Name(BootName(), BlankName())
    ensures ReadPath(v, RootDirectory(CL_EFI, CL_BOOT), path) == ReadPath(v, BootDirectory(files, extras), path[1..])
  {
    hide De, Name, Directory, FindEntry, Chain, ReadPath, EfiDirectory, EfiBootDirectory, BootDirectory;
    RootHasBoot();
    PathStep(v, RootEntries(CL_EFI, CL_BOOT), S, 3, BootName(), BlankName(), CL_BOOT, path,
             BootDirectory(files, extras));
  }

  lemma EfiToBoot(v: Volume, files: seq<seq<byte>>, extras: seq<Extra>, path: seq<seq<byte>>)
    requires |files| == 2 + |extras| && Small(files) && Opens(v, files, extras)
    requires |path| > 1 && path[0] == Name(BootName(), BlankName())
    ensures ReadPath(v, EfiDirectory(CL_EB), path) == ReadPath(v, EfiBootDirectory(|files[0]|), path[1..])
  {
    hide De, Name, Directory, FindEntry, Chain, ReadPath, RootDirectory, EfiBootDirectory, BootDirectory;
    NamesDiffer();
    ThirdFound(EfiEntries(CL_EB), S, CL_EFI, CL_ROOT, BootName(), BlankName(), CL_EB, 0, ADIR);
    PathStep(v, EfiEntries(CL_EB), S, 2, BootName(), BlankName(), CL_EB, path, EfiBootDirectory(|files[0]|));
  }

  function EfiPath(name: seq<byte>): seq<seq<byte>> {
    [Name(EfiName(), BlankName()), Name(BootName(), BlankName()), name]
  }

  function BootPath(name: seq<byte>): seq<seq<byte>> { [Name(BootName(), BlankName()), name] }

  /** BOOTX64.EFI reads back through its path, exactly if the table goes so far. */
  lemma BootloaderReadsBack(img: seq<byte>, ps: nat, fatSec: nat, bs: seq<byte>, fat: seq<byte>, files: seq<seq<byte>>,
                            extras: seq<Extra>)
    requires |files| == 2 + |extras| && Small(files) && Numbered(files)
    requires Built(img, ps, fatSec, bs, fat, files, extras)
    ensures Mount32(img).Some?
    ensures ReadPath(Mount32(img).value, Mount32(img).value.root,
                     EfiPath(Name(Bootx64Name(), EfiName()))) == Readable(fatSec, files, 0)
  {
    hide De, Name, Directory, FindEntry, Chain, ReadPath, ReadFile, Built, Mount32, Sees, EfiDirectory, Readable;
    var path := [Name(EfiName(), BlankName()), Name(BootName(), BlankName()), Name(Bootx64Name(), EfiName())];
    MountedOpens(img, ps, fatSec, bs, fat, files, extras);
    var v := Mount32(img).value;
    RootToEfi(v, files, extras, path);
    EfiToBoot(v, files, extras, path[1..]);
    assert path[1..][1..] == [Name(Bootx64Name(), EfiName())];
    EfiBootReads(v, files);
    LastStep(v, EfiBootDirectory(|files[0]|), Name(Bootx64Name(), EfiName()), ENTRY * 2);
    FileThere(v, img, ps, fatSec, bs, fat, files, extras, 0, EfiBootDirectory(|files[0]|), ENTRY * 2, Bootx64Name(),
              EfiName());
  }

  lemma EfiBootReads(v: Volume, files: seq<seq<byte>>)
    requires |files| > 0 && Small(files)
    ensures FindEntry(EfiBootDirectory(|files[0]|), Name(Bootx64Name(), EfiName()), 0) == Some(ENTRY * 2)
    ensures At(EfiBootDirectory(|files[0]|), ENTRY * 2,
               De(Bootx64Name(), EfiName(), First(files, 0), |files[0]|, AFILE))
  {
    hide De, Name, Directory, FindEntry, At;
    NamesDiffer();
    ThirdFound(EfiBootEntries(|files[0]|), S, CL_EB, CL_EFI, Bootx64Name(), EfiName(), CL_BX, |files[0]|, AFILE);
    DirectoryAt(EfiBootEntries(|files[0]|), S, 2);
  }

  lemma BootEntriesShape(files: seq<seq<byte>>, extras: seq<Extra>, n: nat)
    requires |files| == 2 + |extras| && n <= |extras| && Small(files)
    ensures StartsWith(BootEntries(files, extras, n), CL_BOOT, CL_ROOT,
                       De(MicrontName(), ElfName(), First(files, 1), |files[1]|, AFILE))
  {
    hide De, Dots, First;
    BootEntriesFirst(files, extras, n);
    var es := BootEntries(files, extras, n);
    assert es[0] == es[..3][0] && es[1] == es[..3][1] && es[2] == es[..3][2];
  }

  lemma KernelEntry(files: seq<seq<byte>>, extras: seq<Extra>)
    requires |files| == 2 + |extras| && Small(files)
    ensures FindEntry(BootDirectory(files, extras), Name(MicrontName(), ElfName()), 0) == Some(ENTRY * 2)
    ensures At(BootDirectory(files, extras), ENTRY * 2,
               De(MicrontName(), ElfName(), First(files, 1), |files[1]|, AFILE))
  {
    hide De, Name, Directory, FindEntry, At, BootEntries, First, Dots;
    NamesDiffer();
    BootEntriesShape(files, extras, Listed(extras));
    ThirdFound(BootEntries(files, extras, Listed(extras)), S, CL_BOOT, CL_ROOT, MicrontName(), ElfName(),
               First(files, 1), |files[1]|, AFILE);
    DirectoryAt(BootEntries(files, extras, Listed(extras)), S, 2);
  }

  /** MICRONT.ELF reads back through its path, exactly if the table goes so far. */
  lemma KernelReadsBack(img: seq<byte>, ps: nat, fatSec: nat, bs: seq<byte>, fat: seq<byte>, files: seq<seq<byte>>,
                        extras: seq<Extra>)
    requires |files| == 2 + |extras| && Small(files) && Numbered(files)
    requires Built(img, ps, fatSec, bs, fat, files, extras)
    ensures Mount32(img).Some?
    ensures ReadPath(Mount32(img).value, Mount32(img).value.root,
                     BootPath(Name(MicrontName(), ElfName()))) == Readable(fatSec, files, 1)
  {
    hide De, Name, Directory, FindEntry, Chain, ReadPath, ReadFile, Built, Mount32, Sees, BootDirectory, First;
    var path := [Name(BootName(), BlankName()), Name(MicrontName(), ElfName())];
    MountedOpens(img, ps, fatSec, bs, fat, files, extras);
    var v := Mount32(img).value;
    RootToBoot(v, files, extras, path);
    assert path[1..] == [Name(MicrontName(), ElfName())];
    KernelEntry(files, extras);
    LastStep(v, BootDirectory(files, extras), Name(MicrontName(), ElfName()), ENTRY * 2);
    FileThere(v, img, ps, fatSec, bs, fat, files, extras, 1, BootDirectory(files, extras), ENTRY * 2, MicrontName(),
              ElfName());
  }

  /** The name of a listed extra file is one that a reader can ask for: no name up to it ends the
      directory, its first byte has no special meaning, and no earlier entry has the name. */
  ghost predicate Fresh(extras: seq<Extra>, k: nat)
    requires k < |extras|
  {
    var name := Name(extras[k].name, extras[k].ext);
    && (forall j | 0 <= j <= k :: Name(extras[j].name, extras[j].ext)[0] != 0)
    && name[0] != FREE && name[0] != KANJI
    && name != Name(DotName(), [0x20, 0x20]) && name != Name(DotDotName(), [0x20])
    && name != Name(MicrontName(), ElfName())
    && (forall j | 0 <= j < k :: Name(extras[j].name, extras[j].ext) != name)
  }

  lemma ExtraEntryThere(files: seq<seq<byte>>, extras: seq<Extra>, k: nat)
    requires |files| == 2 + |extras| && Small(files) && k < Listed(extras)
    ensures At(BootDirectory(files, extras), ENTRY * (3 + k),
               De(extras[k].name, extras[k].ext, First(files, 2 + k), |files[2 + k]|, AFILE))
  {
    hide De, Directory, At, BootEntries, First;
    BootEntryAt(files, extras, Listed(extras), k);
    DirectoryAt(BootEntries(files, extras, Listed(extras)), S, 3 + k);
  }

  lemma FixedMatches(es: seq<seq<byte>>, extras: seq<Extra>, name: seq<byte>, i: nat, cl: nat, size: nat)
    requires i < 3 && size < 0x1_0000_0000 && (forall e | e in es :: |e| == ENTRY)
    requires StartsWith(es, CL_BOOT, CL_ROOT, De(MicrontName(), ElfName(), cl, size, AFILE))
    ensures Matches(es[i], name) <==> Answers(BootNames(extras, i), name)
    ensures es[i][0] == BootNames(extras, i)[0]
  {
    hide De, Name, Matches, Answers;
    if i == 0 {
      DeMatches(DotName(), [0x20, 0x20], CL_BOOT, 0, ADIR, name);
    } else if i == 1 {
      DeMatches(DotDotName(), [0x20], CL_ROOT, 0, ADIR, name);
    } else {
      DeMatches(MicrontName(), ElfName(), cl, size, AFILE, name);
    }
  }

  /** Which names find an entry of /boot/. */
  lemma BootMatches(files: seq<seq<byte>>, extras: seq<Extra>, name: seq<byte>, i: nat)
    requires |files| == 2 + |extras| && Small(files) && i < 3 + Listed(extras)
    ensures Matches(BootEntries(files, extras, Listed(extras))[i], name) <==> Answers(BootNames(extras, i), name)
    ensures BootEntries(files, extras, Listed(extras))[i][0] == BootNames(extras, i)[0]
  {
    hide De, Name, BootEntries, First, Matches, Answers, StartsWith;
    var n := Listed(extras);
    if i < 3 {
      BootEntriesShape(files, extras, n);
      FixedMatches(BootEntries(files, extras, n), extras, name, i, First(files, 1), |files[1]|);
    } else {
      var j := i - 3;
      BootEntryAt(files, extras, n, j);
      DeMatches(extras[j].name, extras[j].ext, First(files, 2 + j), |files[2 + j]|, AFILE, name);
    }
  }

  function BootNames(extras: seq<Extra>, i: nat): (n: seq<byte>)
    requires i < 3 + |extras|
    ensures |n| == 11
  {
    if i == 0 then Name(DotName(), [0x20, 0x20])
    else if i == 1 then Name(DotDotName(), [0x20])
    else if i == 2 then Name(MicrontName(), ElfName())
    else Name(extras[i - 3].name, extras[i - 3].ext)
  }

  /** The name of an extra file leads to its entry exactly if it is fresh. */
  lemma ExtraFound(files: seq<seq<byte>>, extras: seq<Extra>, k: nat)
    requires |files| == 2 + |extras| && Small(files) && k < Listed(extras)
    ensures FindEntry(BootDirectory(files, extras), Name(extras[k].name, extras[k].ext), 0) == Some(ENTRY * (3 + k))
      <==> Fresh(extras, k)
  {
    hide De, Name, Directory, FindEntry, BootEntries, First, Matches;
    var es, name := BootEntries(files, extras, Listed(extras)), Name(extras[k].name, extras[k].ext);
    NamesDiffer();
    forall i | 0 <= i <= 3 + k
      ensures Matches(es[i], name) <==> Answers(BootNames(extras, i), name)
      ensures es[i][0] == BootNames(extras, i)[0]
    {
      BootMatches(files, extras, name, i);
    }
    FoundIn(es, S, name, 3 + k);
    FreshMeans(extras, k);
  }

  lemma AnswersItself(stored: seq<byte>, name: seq<byte>)
    requires |stored| == 11 && |name| == 11
    ensures Answers(name, name) <==> name[0] != FREE && name[0] != KANJI
    ensures Answers(name, name) ==> (Answers(stored, name) <==> stored == name)
  {}

  lemma FreshMeans(extras: seq<Extra>, k: nat)
    requires k < |extras|
    ensures Fresh(extras, k) <==>
      (var name := Name(extras[k].name, extras[k].ext);
       && Answers(name, name)
       && (forall i | 0 <= i <= 3 + k :: BootNames(extras, i)[0] != 0)
       && (forall i | 0 <= i < 3 + k :: !Answers(BootNames(extras, i), name)))
  {
    var name := Name(extras[k].name, extras[k].ext);
    NamesDiffer();
    hide Name, Answers;
    forall i | 0 <= i < 3 + k
      ensures Answers(name, name) ==> (Answers(BootNames(extras, i), name) <==> BootNames(extras, i) == name)
    {
      AnswersItself(BootNames(extras, i), name);
    }
    AnswersItself(name, name);
    assert BootNames(extras, 0) == Name(DotName(), [0x20, 0x20]) && BootNames(extras, 1) == Name(DotDotName(), [0x20]);
    assert BootNames(extras, 2) == Name(MicrontName(), ElfName());
    assert forall j | 0 <= j <= k :: BootNames(extras, 3 + j) == Name(extras[j].name, extras[j].ext);
  }

  lemma AnswersOrdinary(stored: seq<byte>, name: seq<byte>)
    requires |stored| == 11 && |name| == 11 && name[0] == FREE && stored[0] != KANJI
    ensures !Answers(stored, name)
  {}

  lemma OrdinaryStart(extras: seq<Extra>, i: nat)
    requires i < 3 + |extras| && (i >= 3 ==> Name(extras[i - 3].name, extras[i - 3].ext)[0] != KANJI)
    ensures BootNames(extras, i)[0] != KANJI
  {
    NamesDiffer();
    hide Name;
  }

  /** A name whose first byte is 0xE5 finds no entry of /boot/, unless another name begins with the
      byte 0x05 that stands for it. */
  lemma FreeNameFindsNothing(files: seq<seq<byte>>, extras: seq<Extra>, name: seq<byte>)
    requires |files| == 2 + |extras| && Small(files) && |name| == 11 && name[0] == FREE
    requires forall j | 0 <= j < Listed(extras) :: Name(extras[j].name, extras[j].ext)[0] != KANJI
    ensures FindEntry(BootDirectory(files, extras), name, 0) == None
  {
    var es := BootEntries(files, extras, Listed(extras));
    hide De, Name, Directory, FindEntry, BootEntries, First, Matches, Answers, Small, BootNames;
    forall i | 0 <= i < |es| ensures !Matches(es[i], name) {
      BootMatches(files, extras, name, i);
      OrdinaryStart(extras, i);
      AnswersOrdinary(BootNames(extras, i), name);
    }
    NotFound(es, S, name, 0);
  }

  /** So a file that goes in with such a name is lost: its path does not read. */
  lemma FreeNameIsLost(img: seq<byte>, ps: nat, fatSec: nat, bs: seq<byte>, fat: seq<byte>, files: seq<seq<byte>>,
                       extras: seq<Extra>, k: nat)
    requires |files| == 2 + |extras| && Small(files) && k < Listed(extras)
    requires Built(img, ps, fatSec, bs, fat, files, extras)
    requires Name(extras[k].name, extras[k].ext)[0] == FREE
    requires forall j | 0 <= j < Listed(extras) :: Name(extras[j].name, extras[j].ext)[0] != KANJI
    ensures Mount32(img).Some?
    ensures ReadPath(Mount32(img).value, Mount32(img).value.root,
      BootPath(Name(extras[k].name, extras[k].ext))) == None
  {
    hide De, Name, Directory, FindEntry, Chain, ReadFile, Built, Mount32, Sees, BootDirectory, First;
    MountedOpens(img, ps, fatSec, bs, fat, files, extras);
    var path := [Name(BootName(), BlankName()), Name(extras[k].name, extras[k].ext)];
    RootToBoot(Mount32(img).value, files, extras, path);
    assert path[1..] == [Name(extras[k].name, extras[k].ext)];
    FreeNameFindsNothing(files, extras, path[1]);
  }

  lemma HaoStart()
    ensures Name([0xE5, 0xA5, 0xBD], [0x54, 0x58, 0x54])[0] == FREE != KANJI
  {}

  lemma OneListed(extras: seq<Extra>)
    requires |extras| == 1
    ensures Listed(extras) == 1
  {}

  /** An input that shows it: U+597D is E5 A5 BD in UTF-8. */
  lemma HaoTxtIsLost(img: seq<byte>, ps: nat, fatSec: nat, bs: seq<byte>, fat: seq<byte>,
                     bootx64: seq<byte>, kernel: seq<byte>, text: seq<byte>)
    requires var extras := [Extra([0xE5, 0xA5, 0xBD], [0x54, 0x58, 0x54], text)];
      && Small(Contents(bootx64, kernel, extras))
      && Built(img, ps, fatSec, bs, fat, Contents(bootx64, kernel, extras), extras)
    ensures Mount32(img).Some?
    ensures ReadPath(Mount32(img).value, Mount32(img).value.root,
      BootPath(Name([0xE5, 0xA5, 0xBD], [0x54, 0x58, 0x54]))) == None
  {
    hide *;
    HaoStart();
    var extras := [Extra([0xE5, 0xA5, 0xBD], [0x54, 0x58, 0x54], text)];
    OneListed(extras);
    FreeNameIsLost(img, ps, fatSec, bs, fat, Contents(bootx64, kernel, extras), extras, 0);
  }

  /** Every listed extra file reads back through its entry, exactly if the table goes so far; its path
      leads to that entry exactly if its name is fresh. */
  lemma ExtrasReadBack(img: seq<byte>, ps: nat, fatSec: nat, bs: seq<byte>, fat: seq<byte>, files: seq<seq<byte>>,
                       extras: seq<Extra>, k: nat)
    requires |files| == 2 + |extras| && Small(files) && Numbered(files) && k < Listed(extras)
    requires Built(img, ps, fatSec, bs, fat, files, extras)
    ensures Mount32(img).Some?
    ensures ENTRY * (3 + k) + ENTRY <= S
    ensures
      ReadFile(Mount32(img).value, BootDirectory(files, extras), ENTRY * (3 + k)) == Readable(fatSec, files, 2 + k)
    ensures FindEntry(BootDirectory(files, extras), Name(extras[k].name, extras[k].ext), 0) == Some(ENTRY * (3 + k))
      <==> Fresh(extras, k)
    ensures Fresh(extras, k) ==> ReadPath(Mount32(img).value, Mount32(img).value.root,
      BootPath(Name(extras[k].name, extras[k].ext))) == Readable(fatSec, files, 2 + k)
  {
    hide De, Name, Directory, FindEntry, Chain, ReadPath, ReadFile, Built, Mount32, Sees, BootDirectory, First, Fresh,
      Readable, Numbered;
    MountedOpens(img, ps, fatSec, bs, fat, files, extras);
    var v := Mount32(img).value;
    ExtraEntryThere(files, extras, k);
    FileThere(v, img, ps, fatSec, bs, fat, files, extras, 2 + k, BootDirectory(files, extras), ENTRY * (3 + k),
              extras[k].name, extras[k].ext);
    ExtraFound(files, extras, k);
    if Fresh(extras, k) {
      var path := [Name(BootName(), BlankName()), Name(extras[k].name, extras[k].ext)];
      RootToBoot(v, files, extras, path);
      assert path[1..] == [Name(extras[k].name, extras[k].ext)];
      LastStep(v, BootDirectory(files, extras), Name(extras[k].name, extras[k].ext), ENTRY * (3 + k));
    }
  }

  // ---- The round trip -------------------------------------------------------------------------------

  /** The round trip: the paths of a mounted partition give back the bootloader, the kernel and every
      listed extra file with a fresh name, each exactly if the table goes so far; for the sizes of
      `TableCoversIff` that is all of them. */
  lemma RoundTrip(img: seq<byte>, ps: nat, fatSec: nat, bs: seq<byte>, fat: seq<byte>,
                  bootx64: seq<byte>, kernel: seq<byte>, extras: seq<Extra>)
    requires Small(Contents(bootx64, kernel, extras)) && Numbered(Contents(bootx64, kernel, extras))
    requires Built(img, ps, fatSec, bs, fat, Contents(bootx64, kernel, extras), extras)
    ensures Mount32(img).Some? && GivesBack(Mount32(img).value, fatSec, bootx64, kernel, extras)
    ensures fatSec == Estimate(ps, 8) && 1000 <= ps < 0x1_0000_0000 && 3 <= (ps - RES) % 130 <= 128 ==>
      GivesAllBack(Mount32(img).value, bootx64, kernel, extras)
  {
    hide Built, Mount32, ReadPath, Name, Small, Fresh, BootPath, EfiPath, Contents, Datas, InTable, Estimate, Numbered;
    var files := Contents(bootx64, kernel, extras);
    ContentsStart(bootx64, kernel, extras);
    BootloaderReadsBack(img, ps, fatSec, bs, fat, files, extras);
    KernelReadsBack(img, ps, fatSec, bs, fat, files, extras);
    var v := Mount32(img).value;
    forall k | 0 <= k < Listed(extras) && Fresh(extras, k)
      ensures ReadPath(v, v.root, BootPath(Name(extras[k].name, extras[k].ext))) == Readable(fatSec, files, 2 + k)
    {
      ExtrasReadBack(img, ps, fatSec, bs, fat, files, extras, k);
    }
    if fatSec == Estimate(ps, 8) && 1000 <= ps < 0x1_0000_0000 && 3 <= (ps - RES) % 130 <= 128 {
      AllFit(img, ps, fatSec, bs, fat, files, extras);
      forall k | 0 <= k < |files| ensures InTable(fatSec, files, k) { TableReaches(ps, files, k); }
      forall k | 0 <= k < |extras| ensures files[2 + k] == extras[k].data { ContentsAt(bootx64, kernel, extras, k); }
    }
  }

  /** What a volume's paths lead to when the table has `fatSec` sectors. */
  ghost predicate GivesBack(v: Volume, fatSec: nat, bootx64: seq<byte>, kernel: seq<byte>, extras: seq<Extra>) {
    var files := Contents(bootx64, kernel, extras);
    && ReadPath(v, v.root, EfiPath(Name(Bootx64Name(), EfiName()))) == Readable(fatSec, files, 0)
    && ReadPath(v, v.root, BootPath(Name(MicrontName(), ElfName()))) == Readable(fatSec, files, 1)
    && forall k | 0 <= k < Listed(extras) && Fresh(extras, k) ::
         ReadPath(v, v.root, BootPath(Name(extras[k].name, extras[k].ext))) == Readable(fatSec, files, 2 + k)
  }

  /** A volume's paths lead to the contents that went in. */
  ghost predicate GivesAllBack(v: Volume, bootx64: seq<byte>, kernel: seq<byte>, extras: seq<Extra>) {
    && ReadPath(v, v.root, EfiPath(Name(Bootx64Name(), EfiName()))) == Some(bootx64)
    && ReadPath(v, v.root, BootPath(Name(MicrontName(), ElfName()))) == Some(kernel)
    && forall k | 0 <= k < Listed(extras) && Fresh(extras, k) ::
         ReadPath(v, v.root, BootPath(Name(extras[k].name, extras[k].ext))) == Some(extras[k].data)
  }

  lemma ContentsStart(bootx64: seq<byte>, kernel: seq<byte>, extras: seq<Extra>)
    ensures Contents(bootx64, kernel, extras)[0] == bootx64 && Contents(bootx64, kernel, extras)[1] == kernel
  {}

  lemma ContentsAt(bootx64: seq<byte>, kernel: seq<byte>, extras: seq<Extra>, k: nat)
    requires k < |extras|
    ensures Contents(bootx64, kernel, extras)[2 + k] == extras[k].data
  {}

  lemma AllFit(img: seq<byte>, ps: nat, fatSec: nat, bs: seq<byte>, fat: seq<byte>, files: seq<seq<byte>>,
               extras: seq<Extra>)
    requires |files| == 2 + |extras| && Small(files) && Built(img, ps, fatSec, bs, fat, files, extras)
    ensures forall k | 0 <= k < |files| :: FileFits(ps, fatSec, files, k)
  {
    hide RootDirectory, EfiDirectory, EfiBootDirectory, BootDirectory, TableOk, BootSectorOk, Small, Clo;
  }

  /** With a table for every cluster, what fits the partition is in the table. */
  lemma TableReaches(ps: nat, files: seq<seq<byte>>, k: nat)
    requires 1000 <= ps < 0x1_0000_0000 && 3 <= (ps - RES) % 130 <= 128 && k < |files|
    requires FileFits(ps, Estimate(ps, 8), files, k)
    ensures InTable(Estimate(ps, 8), files, k)
  {
    TableCoversIff(ps);
    hide Estimate, First, Ncl;
    if files[k] != [] { WholeClusters(ps, Estimate(ps, 8), First(files, k), files[k]); }
  }

  /** A file that ends with the last cluster is in the table exactly for those sizes. */
  lemma LastClusterInTable(ps: nat, files: seq<seq<byte>>, k: nat)
    requires 1000 <= ps < 0x1_0000_0000 && k < |files| && files[k] != []
    requires First(files, k) + Ncl(|files[k]|) == Clusters(ps, Estimate(ps, 8)) + 2
    ensures InTable(Estimate(ps, 8), files, k) <==> 3 <= (ps - RES) % 130 <= 128
  {
    TableCoversIff(ps);
    hide Estimate, First, Ncl;
  }

  function OneExtra(data: seq<byte>): seq<Extra> { [Extra([0x41], [0x45, 0x58, 0x45], data)] }

  /** The disk for 61 MB of bootloader and kernel has 65 MB, and its partition is of another size: A.EXE,
      filling the partition, cannot be read. */
  lemma FullDiskLosesExtra(img: seq<byte>, bs: seq<byte>, fat: seq<byte>, bootx64: seq<byte>, kernel: seq<byte>,
                           data: seq<byte>)
    requires |bootx64| <= S && |kernel| == 61 * 0x10_0000 - S && |data| == 4092 * S
    requires Small(Contents(bootx64, kernel, OneExtra(data)))
    requires Built(img, 64 * 2048, Estimate(64 * 2048, 8), bs, fat, Contents(bootx64, kernel, OneExtra(data)),
                   OneExtra(data))
    ensures FileFits(64 * 2048, Estimate(64 * 2048, 8), Contents(bootx64, kernel, OneExtra(data)), 2)
    ensures Mount32(img).Some?
    ensures ReadPath(Mount32(img).value, Mount32(img).value.root, BootPath(Name([0x41], [0x45, 0x58, 0x45]))) == None
  {
    hide *;
    EstimateIs(64 * 2048);
    LastEnds(bootx64, kernel, data);
    OneExtraIsFresh(data);
    var files := Contents(bootx64, kernel, OneExtra(data));
    ExtrasReadBack(img, 64 * 2048, Estimate(64 * 2048, 8), bs, fat, files, OneExtra(data), 0);
  }

  lemma LastEnds(bootx64: seq<byte>, kernel: seq<byte>, data: seq<byte>)
    requires |bootx64| <= S && |kernel| == 61 * 0x10_0000 - S && |data| == 4092 * S
    ensures var files := Contents(bootx64, kernel, OneExtra(data));
      && |files| == 3 && Numbered(files) && FileFits(64 * 2048, 1008, files, 2) && Readable(1008, files, 2) == None
  {
    var files := Contents(bootx64, kernel, OneExtra(data));
    ContentsStart(bootx64, kernel, OneExtra(data));
    ContentsAt(bootx64, kernel, OneExtra(data), 0);
    assert files[2] == data;
    assert First(files, 1) == 7;
    assert First(files, 2) == 124934;
    assert First(files, 3) == 129026;
  }

  lemma OneExtraIsFresh(data: seq<byte>)
    ensures var e := OneExtra(data);
      Listed(e) == 1 && Fresh(e, 0) && e[0].name == [0x41] && e[0].ext == [0x45, 0x58, 0x45]
  {
    assert Name([0x41], [0x45, 0x58, 0x45])[0] == 0x41;
    assert Name(DotName(), [0x20, 0x20])[0] == Name(DotDotName(), [0x20])[0] == 0x2E;
    assert Name(MicrontName(), ElfName())[0] == 0x4D;
  }

  function FirstTable(img: seq<byte>, fatSec: nat): seq<byte>
    requires DataStart(fatSec) * S <= |img|
  {
    img[RES * S..RES * S + fatSec * S]
  }

  function SecondTable(img: seq<byte>, fatSec: nat): seq<byte>
    requires DataStart(fatSec) * S <= |img|
  {
    img[RES * S + fatSec * S..DataStart(fatSec) * S]
  }

  /** The two copies of the table are the same. */
  lemma SameTables(img: seq<byte>, ps: nat, fatSec: nat, bs: seq<byte>, fat: seq<byte>, files: seq<seq<byte>>,
                   extras: seq<Extra>)
    requires |files| == 2 + |extras| && Small(files)
    requires Built(img, ps, fatSec, bs, fat, files, extras)
    ensures DataStart(fatSec) * S <= |img| && FirstTable(img, fatSec) == SecondTable(img, fatSec)
  {
    hide BootSectorOk, DirectoriesPlaced, FilesPlaced, TableOk, At;
    DataFits(img, ps, fatSec, bs, fat, files, extras);
    AtSlice(img, RES * S, fat);
    AtSlice(img, RES * S + fatSec * S, fat);
  }
}
