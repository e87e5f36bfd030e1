/** Reading a FAT12 image back. */
module Fat12RoundTrip {
  import opened Wrappers
  import opened ByteBuffers
  import opened FatReader
  import opened FatDirectories
  import opened Fat12Table
  import opened Fat12Spec

  /** Mounts a FAT12 volume with 512-byte sectors from its boot sector and first table. */
  function Mount12(img: seq<byte>): Option<Volume> {
    if |img| < SECTOR || U16(img, 11) != SECTOR then None else
    MountAt(img, img[13], U16(img, 14) * SECTOR, Times(img[16], U16(img, 22)) * SECTOR, U16(img, 22) * SECTOR,
            U16(img, 17) * ENTRY)
  }

  function MountAt(img: seq<byte>, perCluster: nat, table: nat, tables: nat, tableSize: nat,
                   rootSize: nat): Option<Volume> {
    var root := table + tables;
    if table + tableSize > |img| || root + rootSize > |img| then None else
    Some(Volume(Unpack(img[table..table + tableSize]), img[root + rootSize..], perCluster * SECTOR, 0xFF8,
                img[root..root + rootSize]))
  }

  /** The volume the reader should see. */
  ghost predicate Sees(v: Volume, img: seq<byte>, table: seq<byte>)
    requires |img| >= DATA_SECTOR * SECTOR
  {
    && v.clusterSize == CLUSTER && v.eoc == 0xFF8 && v.area == img[DATA_SECTOR * SECTOR..] && v.fat == Unpack(table)
    && v.root == RootDirectory(CL_EFI, CL_BOOT)
  }

  lemma ReadsBootFields(img: seq<byte>, bs: seq<byte>, total: nat)
    requires BootSectorOk(bs, total) && At(img, 0, bs)
    ensures |img| >= SECTOR && U16(img, 11) == SECTOR && img[13] == PER_CLUSTER && U16(img, 14) == RESERVED
    ensures img[16] == COPIES && U16(img, 17) == ROOT_ENTRIES && U16(img, 22) == 1
  {
    hide Le16, U16, BootSectorOk;
    GeometryIn(bs, total);
    BootSectorSize(bs, total);
    AtPart(img, 0, bs, 11, Le16(SECTOR));
    AtPart(img, 0, bs, 13, [PER_CLUSTER]);
    AtPart(img, 0, bs, 14, Le16(RESERVED));
    AtPart(img, 0, bs, 16, [COPIES]);
    AtPart(img, 0, bs, 17, Le16(ROOT_ENTRIES));
    AtPart(img, 0, bs, 22, Le16(1));
    AtByte(img, 13, [PER_CLUSTER], 0);
    AtByte(img, 16, [COPIES], 0);
    AtU16(img, 11, SECTOR);
    AtU16(img, 14, RESERVED);
    AtU16(img, 17, ROOT_ENTRIES);
    AtU16(img, 22, 1);
  }

  lemma PartAt(img: seq<byte>, fs: seq<Field>, i: nat)
    requires AllAt(img, fs) && i < |fs|
    ensures At(img, fs[i].off, fs[i].data)
  {
    hide At;
  }

  /** What the reader makes of a boot sector, a table and a root directory. */
  lemma MountsHead(img: seq<byte>, table: seq<byte>)
    requires |img| >= DATA_SECTOR * SECTOR && |table| == SECTOR
    requires U16(img, 11) == SECTOR && img[13] == PER_CLUSTER && U16(img, 14) == RESERVED && img[16] == COPIES
    requires U16(img, 17) == ROOT_ENTRIES && U16(img, 22) == 1
    requires At(img, SECTOR, table) && At(img, 3 * SECTOR, RootDirectory(CL_EFI, CL_BOOT))
    ensures Mount12(img).Some? && Sees(Mount12(img).value, img, table)
  {
    hide At, RootDirectory, U16, Unpack;
    AtSlice(img, SECTOR, table);
    AtSlice(img, 3 * SECTOR, RootDirectory(CL_EFI, CL_BOOT));
  }

  /** The parts the reader starts from. */
  lemma HeadParts(img: seq<byte>, bs: seq<byte>, table: seq<byte>, boot: seq<byte>, kernel: seq<byte>)
    requires |boot| < 0x1_0000_0000 && |kernel| < 0x1_0000_0000 && Built(img, bs, table, boot, kernel)
    ensures |img| >= DATA_SECTOR * SECTOR && |table| == SECTOR && BootSectorOk(bs, Sectors(boot, kernel))
    ensures At(img, 0, bs)
    ensures At(img, SECTOR, table) && At(img, 2 * SECTOR, table) && At(img, 3 * SECTOR, RootDirectory(CL_EFI, CL_BOOT))
  {
    hide BootSectorOk, AllAt, At, RootDirectory, EfiDirectory, EfiBootDirectory, BootDirectory, LinksTo, Unpack;
    EverythingFits(boot, kernel);
    var fs := Parts(bs, table, boot, kernel);
    PartAt(img, fs, 0);
    PartAt(img, fs, 1);
    PartAt(img, fs, 2);
    PartAt(img, fs, 3);
  }

  /** What mounting a built image gives; both copies of the table are the same. */
  lemma Mounts(img: seq<byte>, bs: seq<byte>, table: seq<byte>, boot: seq<byte>, kernel: seq<byte>)
    requires |boot| < 0x1_0000_0000 && |kernel| < 0x1_0000_0000 && Built(img, bs, table, boot, kernel)
    ensures |img| >= DATA_SECTOR * SECTOR && Mount12(img).Some? && Sees(Mount12(img).value, img, table)
    ensures img[SECTOR..2 * SECTOR] == table == img[2 * SECTOR..3 * SECTOR]
  {
    hide Built, BootSectorOk, At, Sees, Mount12, RootDirectory, U16, Sectors;
    HeadParts(img, bs, table, boot, kernel);
    ReadsBootFields(img, bs, Sectors(boot, kernel));
    MountsHead(img, table);
    AtSlice(img, SECTOR, table);
    AtSlice(img, 2 * SECTOR, table);
  }

  lemma InArea(v: Volume, img: seq<byte>, cl: nat, data: seq<byte>)
    requires |img| >= DATA_SECTOR * SECTOR && v.area == img[DATA_SECTOR * SECTOR..]
    requires cl >= 2 && At(img, Clo(cl), data)
    ensures At(v.area, Offset(cl, CLUSTER), data)
  {
    CloIsOffset(cl);
    var base := DATA_SECTOR * SECTOR;
    hide Offset, Clo;
    var a := Offset(cl, CLUSTER);
    forall i | 0 <= i < |data| ensures v.area[a + i] == data[i] {
      AtByte(img, Clo(cl), data, i);
      assert v.area[a + i] == img[base + (a + i)];
    }
  }

  /** The chain of a directory is its one cluster. */
  lemma ReadsDirectory(v: Volume, img: seq<byte>, table: seq<byte>, n1: nat, n2: nat, cl: nat, d: seq<byte>)
    requires |img| >= DATA_SECTOR * SECTOR && Sees(v, img, table) && TableOk(table, n1, n2)
    requires CL_EFI <= cl <= CL_BOOT && |d| == CLUSTER && At(img, Clo(cl), d)
    ensures Chain(v, cl) == Some(d)
  {
    hide Unpack, Clo;
    UnpackSize(table);
    InArea(v, img, cl, d);
    OffsetStep(cl, CLUSTER);
    hide Offset;
    assert Linked(v.fat, v.eoc, cl, 1);
    LinkedReads(v, cl, 1, |v.fat|);
    AtSlice(v.area, Offset(cl, CLUSTER), d);
  }

  lemma UnpackSize(table: seq<byte>)
    requires |table| == SECTOR
    ensures |Unpack(table)| == ENTRIES
  {}

  /** A chain that the table is too short for does not end. */
  lemma {:induction false} RunsOut(v: Volume, first: nat, n: nat, fuel: nat)
    requires LinksTo(v.fat, first, n) && n > 0 && first + n > |v.fat| && v.eoc > |v.fat|
    ensures ReadChain(v, first, fuel) == None
    decreases n
  {
    hide Offset;
    if fuel > 0 && first < |v.fat| {
      assert first < first + n - 1;
      assert LinksTo(v.fat, first + 1, n - 1);
      RunsOut(v, first + 1, n - 1, fuel - 1);
    }
  }

  /** A file reads back through its entry if it is empty or its last cluster is in the table; there
      is nothing to read otherwise. */
  lemma ReadsFile(v: Volume, img: seq<byte>, table: seq<byte>, first: nat, data: seq<byte>, dir: seq<byte>, off: nat,
                  n8: seq<byte>, e3: seq<byte>)
    requires |img| >= DATA_SECTOR * SECTOR && |table| == SECTOR && Sees(v, img, table)
    requires LinksTo(Unpack(table), first, Ncl(|data|))
    requires 2 <= first < 0x1_0000_0000 && |data| < 0x1_0000_0000 && Clo(first + Ncl(|data|)) <= |img|
    requires At(dir, off, De(n8, e3, first, |data|, AFILE)) && At(img, Clo(first), data)
    ensures off + ENTRY <= |dir|
    ensures ReadFile(v, dir, off) == if data == [] || first + Ncl(|data|) - 1 < ENTRIES then Some(data) else None
  {
    hide De, Unpack, Clo, At, Ncl, FirstCluster, U32, ReadFile, Sees, LinksTo;
    DeFields(dir, off, n8, e3, first, |data|, AFILE);
    if data == [] || first + Ncl(|data|) - 1 < ENTRIES {
      ReadsWhole(v, img, table, first, data, dir, off);
    } else {
      ReadsNothing(v, img, table, first, data, dir, off);
    }
  }

  lemma ReadsWhole(v: Volume, img: seq<byte>, table: seq<byte>, first: nat, data: seq<byte>, dir: seq<byte>, off: nat)
    requires |img| >= DATA_SECTOR * SECTOR && |table| == SECTOR && Sees(v, img, table)
    requires LinksTo(Unpack(table), first, Ncl(|data|))
    requires 2 <= first && Clo(first + Ncl(|data|)) <= |img| && At(img, Clo(first), data)
    requires off + ENTRY <= |dir| && FirstCluster(dir, off) == first && U32(dir, off + 28) == |data|
    requires dir[off + 11] == AFILE
    requires data == [] || first + Ncl(|data|) - 1 < ENTRIES
    ensures ReadFile(v, dir, off) == Some(data)
  {
    hide Unpack, Clo, FirstCluster, U32, At, Ncl, Offset;
    var n := Ncl(|data|);
    UnpackSize(table);
    InArea(v, img, first, data);
    CloIsOffset(first + n);
    LinkedFile(v, dir, off, first, n, data);
  }

  lemma ReadsNothing(v: Volume, img: seq<byte>, table: seq<byte>, first: nat, data: seq<byte>, dir: seq<byte>, off: nat)
    requires |img| >= DATA_SECTOR * SECTOR && |table| == SECTOR && Sees(v, img, table)
    requires LinksTo(Unpack(table), first, Ncl(|data|))
    requires off + ENTRY <= |dir| && FirstCluster(dir, off) == first && U32(dir, off + 28) == |data|
    requires dir[off + 11] == AFILE
    requires data != [] && first + Ncl(|data|) - 1 >= ENTRIES
    ensures ReadFile(v, dir, off) == None
  {
    hide Unpack, FirstCluster, U32, Ncl, ReadChain, LinksTo;
    UnpackSize(table);
    RunsOut(v, first, Ncl(|data|), |v.fat|);
  }

  // ---- The two paths ------------------------------------------------------------------------

  ghost predicate Opens(v: Volume, boot: seq<byte>, kernel: seq<byte>)
    requires |boot| < 0x1_0000_0000 && |kernel| < 0x1_0000_0000
  {
    && v.root == RootDirectory(CL_EFI, CL_BOOT) && Chain(v, CL_EFI) == Some(EfiDirectory(CL_EFIBOOT))
    && Chain(v, CL_EFIBOOT) == Some(EfiBootDirectory(|boot|))
    && Chain(v, CL_BOOT) == Some(BootDirectory(KernelAt(boot), |kernel|))
  }

  lemma MountedOpens(img: seq<byte>, bs: seq<byte>, table: seq<byte>, boot: seq<byte>, kernel: seq<byte>)
    requires |boot| < 0x1_0000_0000 && |kernel| < 0x1_0000_0000 && Built(img, bs, table, boot, kernel)
    ensures |img| >= DATA_SECTOR * SECTOR && Mount12(img).Some? && Sees(Mount12(img).value, img, table)
    ensures Opens(Mount12(img).value, boot, kernel)
  {
    hide Mount12, Chain, AllAt, At, RootDirectory, EfiDirectory, EfiBootDirectory, BootDirectory, TableOk, Clo,
      BootSectorOk;
    Mounts(img, bs, table, boot, kernel);
    var v, fs := Mount12(img).value, Parts(bs, table, boot, kernel);
    PartAt(img, fs, 4);
    PartAt(img, fs, 5);
    PartAt(img, fs, 6);
    ReadsDirectory(v, img, table, Ncl(|boot|), Ncl(|kernel|), CL_EFI, EfiDirectory(CL_EFIBOOT));
    ReadsDirectory(v, img, table, Ncl(|boot|), Ncl(|kernel|), CL_EFIBOOT, EfiBootDirectory(|boot|));
    ReadsDirectory(v, img, table, Ncl(|boot|), Ncl(|kernel|), CL_BOOT, BootDirectory(KernelAt(boot), |kernel|));
  }

  lemma RootFinds(k: nat)
    requires k < 2
    ensures FindEntry(RootDirectory(CL_EFI, CL_BOOT), Name(if k == 0 then EfiName() else BootName(), BlankName()),
                      0) == Some(ENTRY * k)
  {
    var name := Name(if k == 0 then EfiName() else BootName(), BlankName());
    hide De, Name, Directory, FindEntry, Matches;
    NamesDiffer();
    DeMatches(EfiName(), BlankName(), CL_EFI, 0, ADIR, name);
    DeMatches(BootName(), BlankName(), CL_BOOT, 0, ADIR, name);
    FoundIn(RootEntries(CL_EFI, CL_BOOT), ROOT_BYTES, name, k);
  }

  /** BOOTX64.EFI reads back exactly if it is empty or its last cluster is at most 340. */
  lemma BootloaderReadsBack(img: seq<byte>, bs: seq<byte>, table: seq<byte>, boot: seq<byte>, kernel: seq<byte>)
    requires |boot| < 0x1_0000_0000 && |kernel| < 0x1_0000_0000 && Built(img, bs, table, boot, kernel)
    ensures Mount12(img).Some?
    ensures var v := Mount12(img).value;
      ReadPath(v, v.root, [Name(EfiName(), BlankName()), Name(BootName(), BlankName()), Name(Bootx64Name(), EfiName())])
      == if boot == [] || KernelAt(boot) - 1 <= 340 then Some(boot) else None
  {
    hide De, Name, Directory, FindEntry, Chain, ReadPath, ReadFile, Mount12, Sees, Clo, BootSectorOk, At, AllAt,
      LinksTo;
    var path := [Name(EfiName(), BlankName()), Name(BootName(), BlankName()), Name(Bootx64Name(), EfiName())];
    MountedOpens(img, bs, table, boot, kernel);
    EverythingFits(boot, kernel);
    var v := Mount12(img).value;
    NamesDiffer();
    RootFinds(0);
    PathStep(v, RootEntries(CL_EFI, CL_BOOT), ROOT_BYTES, 0, EfiName(), BlankName(), CL_EFI, path,
             EfiDirectory(CL_EFIBOOT));
    ThirdFound(EfiEntries(CL_EFIBOOT), CLUSTER, CL_EFI, 0, BootName(), BlankName(), CL_EFIBOOT, 0, ADIR);
    PathStep(v, EfiEntries(CL_EFIBOOT), CLUSTER, 2, BootName(), BlankName(), CL_EFIBOOT, path[1..],
             EfiBootDirectory(|boot|));
    assert path[1..][1..] == [Name(Bootx64Name(), EfiName())];
    ThirdFound(EfiBootEntries(|boot|), CLUSTER, CL_EFIBOOT, CL_EFI, Bootx64Name(), EfiName(), CL_BOOTX64, |boot|,
               AFILE);
    LastStep(v, EfiBootDirectory(|boot|), Name(Bootx64Name(), EfiName()), ENTRY * 2);
    DirectoryAt(EfiBootEntries(|boot|), CLUSTER, 2);
    PartAt(img, Parts(bs, table, boot, kernel), 7);
    ReadsFile(v, img, table, CL_BOOTX64, boot, EfiBootDirectory(|boot|), ENTRY * 2, Bootx64Name(), EfiName());
  }

  /** MICRONT.ELF reads back exactly if it is empty or its last cluster is at most 340. */
  lemma KernelReadsBack(img: seq<byte>, bs: seq<byte>, table: seq<byte>, boot: seq<byte>, kernel: seq<byte>)
    requires |boot| < 0x1_0000_0000 && |kernel| < 0x1_0000_0000 && Built(img, bs, table, boot, kernel)
    ensures Mount12(img).Some?
    ensures var v := Mount12(img).value;
      ReadPath(v, v.root, [Name(BootName(), BlankName()), Name(MicrontName(), ElfName())])
      == if kernel == [] || LastCluster(boot, kernel) <= 340 then Some(kernel) else None
  {
    hide De, Name, Directory, FindEntry, Chain, ReadPath, ReadFile, Mount12, Sees, Clo, BootSectorOk, At, AllAt,
      LinksTo;
    var path := [Name(BootName(), BlankName()), Name(MicrontName(), ElfName())];
    MountedOpens(img, bs, table, boot, kernel);
    EverythingFits(boot, kernel);
    var v, cl := Mount12(img).value, KernelAt(boot);
    NamesDiffer();
    RootFinds(1);
    PathStep(v, RootEntries(CL_EFI, CL_BOOT), ROOT_BYTES, 1, BootName(), BlankName(), CL_BOOT, path,
             BootDirectory(cl, |kernel|));
    assert path[1..] == [Name(MicrontName(), ElfName())];
    ThirdFound(BootEntries(cl, |kernel|), CLUSTER, CL_BOOT, 0, MicrontName(), ElfName(), cl, |kernel|, AFILE);
    LastStep(v, BootDirectory(cl, |kernel|), Name(MicrontName(), ElfName()), ENTRY * 2);
    DirectoryAt(BootEntries(cl, |kernel|), CLUSTER, 2);
    PartAt(img, Parts(bs, table, boot, kernel), 8);
    ReadsFile(v, img, table, cl, kernel, BootDirectory(cl, |kernel|), ENTRY * 2, MicrontName(), ElfName());
  }
}
