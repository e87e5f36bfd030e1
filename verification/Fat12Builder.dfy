/** build_fat12_esp, filling its byte arrays in place. */
module Fat12Builder {
  import opened Wrappers
  import opened ByteBuffers
  import opened FatReader
  import opened FatDirectories
  import opened Fat12Table
  import opened Fat12Spec

  lemma FieldsInOrder(total: nat)
    requires total < 0x1_0000
    ensures var all := BootFields(total);
      |all| == 7 && forall i, j | 0 <= i < j < 7 :: all[i].off + |all[i].data| <= all[j].off
  {
    hide Le16, Le32, Geometry;
  }

  /** The boot sector. */
  method BuildBootSector(total: nat) returns (bs: array<byte>)
    requires total < 0x1_0000
    ensures fresh(bs) && bs.Length == SECTOR && BootSectorOk(bs[..], total)
  {
    hide Begun, Filled, Le16, Le32, Geometry;
    ghost var all := BootFields(total);
    FieldsInOrder(total);
    bs := new byte[SECTOR](_ => 0);
    NoneYet(bs[..], all);
    PutNext(bs, 0, [0xEB, 0x3C, 0x90, 0x4D, 0x53, 0x57, 0x49, 0x4E, 0x34, 0x2E, 0x31], all, 0);
    PutGeometry(bs, total, all);
    PutNext(bs, 24, Le16(1) + Le16(1) + Le32(0) + Le32(0), all, 2);
    PutNext(bs, 36, [0x80], all, 3);
    PutNext(bs, 38, [0x29] + Le32(0xDEAD_BEEF), all, 4);
    PutNext(bs, 43, [0x4D, 0x49, 0x43, 0x52, 0x4F, 0x4E, 0x54, 0x2D, 0x45, 0x53, 0x50,
                     0x46, 0x41, 0x54, 0x31, 0x32, 0x20, 0x20, 0x20], all, 5);
    PutNext(bs, 510, [0x55, 0xAA], all, 6);
    AllBegun(bs[..], all);
  }

  method PutGeometry(bs: array<byte>, total: nat, ghost all: seq<Field>)
    requires total < 0x1_0000 && bs.Length == SECTOR
    requires |all| == 7 && Begun(bs[..], all, 1) && all[1] == Field(11, Geometry(total))
    modifies bs
    ensures Begun(bs[..], all, 2)
  {
    hide Begun, Le16;
    PutNext(bs, 11, Le16(512) + [4] + Le16(1) + [2] + Le16(64) + Le16(total) + [0xF8] + Le16(1), all, 1);
  }

  /** The packed table. */
  method BuildTable(n1: nat, n2: nat) returns (table: array<byte>)
    ensures fresh(table) && TableOk(table[..], n1, n2)
  {
    hide Decode, Get, AllocChain, TableOk;
    var links := AllocChainLoop(FixedLinks(), CL_BOOTX64, n1);
    links := AllocChainLoop(links, CL_BOOTX64 + n1, n2);
    table := Encode(links, CL_BOOTX64 + n1 + n2);
    TableHolds(table[..], n1, n2);
  }

  method BuildRootDirectory() returns (d: array<byte>)
    ensures fresh(d) && d[..] == RootDirectory(CL_EFI, CL_BOOT)
  {
    hide De, Directory;
    EmptyDirectory(ROOT_BYTES);
    d := new byte[ROOT_BYTES](_ => 0);
    assert d[..] == Fill(0, ROOT_BYTES);
    var efi, boot := De(EfiName(), BlankName(), CL_EFI, 0, ADIR), De(BootName(), BlankName(), CL_BOOT, 0, ADIR);
    AddEntry(d, 0, efi, []);
    assert [] + [efi] == [efi];
    AddEntry(d, 32, boot, [efi]);
    assert [efi] + [boot] == RootEntries(CL_EFI, CL_BOOT);
  }

  /** A directory of the dots and one entry. */
  method BuildDirectory(self: nat, parent: nat, e: seq<byte>) returns (d: array<byte>)
    requires |e| == ENTRY
    ensures fresh(d) && d[..] == Directory(Dots(self, parent) + [e], CLUSTER)
  {
    hide De, Directory, Dots;
    d := NewDirectory(CLUSTER, self, parent);
    AddEntry(d, 64, e, Dots(self, parent));
  }

  /** Everything up to the directories. */
  method PutHead(img: array<byte>, bs: seq<byte>, table: seq<byte>) returns (ghost fs: seq<Field>)
    requires |bs| == SECTOR && |table| == SECTOR && Clo(CL_EFI) <= img.Length
    requires forall i | 0 <= i < img.Length :: img[i] == 0
    modifies img
    ensures fs == [Field(0, bs), Field(SECTOR, table), Field(2 * SECTOR, table),
                   Field(3 * SECTOR, RootDirectory(CL_EFI, CL_BOOT))]
    ensures Filled(img[..], fs) && Below(fs, Clo(CL_EFI))
  {
    hide At, Blank, RootDirectory;
    assert Blank(img[..], []) by { NoFields(img[..]); }
    Append(img, 0, bs, []);
    fs := [Field(0, bs)];
    assert [] + [Field(0, bs)] == fs;
    Append(img, SECTOR, table, fs);
    fs := fs + [Field(SECTOR, table)];
    Append(img, 2 * SECTOR, table, fs);
    fs := fs + [Field(2 * SECTOR, table)];
    var root := BuildRootDirectory();
    Append(img, 3 * SECTOR, root[..], fs);
    fs := fs + [Field(3 * SECTOR, RootDirectory(CL_EFI, CL_BOOT))];
  }

  /** The three directories of clusters 2 to 4. */
  method PutDirectories(img: array<byte>, boot: seq<byte>, kernel: seq<byte>, ghost before: seq<Field>)
      returns (ghost fs: seq<Field>)
    requires |boot| < 0x1_0000_0000 && |kernel| < 0x1_0000_0000 && Clo(CL_BOOTX64) <= img.Length
    requires Filled(img[..], before) && Below(before, Clo(CL_EFI))
    modifies img
    ensures fs == before + [Field(Clo(CL_EFI), EfiDirectory(CL_EFIBOOT)),
                            Field(Clo(CL_EFIBOOT), EfiBootDirectory(|boot|)),
                            Field(Clo(CL_BOOT), BootDirectory(KernelAt(boot), |kernel|))]
    ensures Filled(img[..], fs) && Below(fs, Clo(CL_BOOTX64))
  {
    hide At, Blank, De, Directory, Dots;
    var efi := BuildDirectory(CL_EFI, 0, De(BootName(), BlankName(), CL_EFIBOOT, 0, ADIR));
    Append(img, Clo(CL_EFI), efi[..], before);
    fs := before + [Field(Clo(CL_EFI), EfiDirectory(CL_EFIBOOT))];
    var efiBoot := BuildDirectory(CL_EFIBOOT, CL_EFI, De(Bootx64Name(), EfiName(), CL_BOOTX64, |boot|, AFILE));
    Append(img, Clo(CL_EFIBOOT), efiBoot[..], fs);
    fs := fs + [Field(Clo(CL_EFIBOOT), EfiBootDirectory(|boot|))];
    var bootDir := BuildDirectory(CL_BOOT, 0, De(MicrontName(), ElfName(), KernelAt(boot), |kernel|, AFILE));
    Append(img, Clo(CL_BOOT), bootDir[..], fs);
    fs := fs + [Field(Clo(CL_BOOT), BootDirectory(KernelAt(boot), |kernel|))];
  }

  /** build_fat12_esp: an image with 65536 sectors or more cannot record its size. */
  method Build(boot: seq<byte>, kernel: seq<byte>)
      returns (image: Option<array<byte>>, ghost bs: seq<byte>, ghost table: seq<byte>)
    requires |boot| < 0x1_0000_0000 && |kernel| < 0x1_0000_0000
    ensures image.None? <==> Sectors(boot, kernel) >= 0x1_0000
    ensures image.Some? ==> Built(image.value[..], bs, table, boot, kernel)
  {
    hide AllAt, Blank, Below, RootDirectory, EfiDirectory, EfiBootDirectory, BootDirectory, TableOk, BootSectorOk, Clo;
    EverythingFits(boot, kernel);
    FirstClusters();
    bs, table := [], [];
    var img := new byte[Sectors(boot, kernel) * SECTOR](_ => 0);
    if Sectors(boot, kernel) >= 0x1_0000 { return None, bs, table; }
    var sector := BuildBootSector(Sectors(boot, kernel));
    var fat := BuildTable(Ncl(|boot|), Ncl(|kernel|));
    bs, table := sector[..], fat[..];
    SizesOf(bs, Sectors(boot, kernel), table, Ncl(|boot|), Ncl(|kernel|));
    ghost var fs := PutHead(img, sector[..], fat[..]);
    fs := PutDirectories(img, boot, kernel, fs);
    Append(img, Clo(CL_BOOTX64), boot, fs);
    fs := fs + [Field(Clo(CL_BOOTX64), boot)];
    BelowMore(fs, Clo(CL_BOOTX64) + |boot|, Clo(KernelAt(boot)));
    Append(img, Clo(KernelAt(boot)), kernel, fs);
    fs := fs + [Field(Clo(KernelAt(boot)), kernel)];
    assert fs == Parts(bs, table, boot, kernel);
    image := Some(img);
  }

  lemma FirstClusters()
    ensures Clo(CL_EFI) <= Clo(CL_BOOTX64)
  {}

  lemma SizesOf(bs: seq<byte>, total: nat, table: seq<byte>, n1: nat, n2: nat)
    requires BootSectorOk(bs, total) && TableOk(table, n1, n2)
    ensures |bs| == SECTOR && |table| == SECTOR
  {}

  lemma BelowMore(fs: seq<Field>, a: nat, b: nat)
    requires Below(fs, a) && a <= b
    ensures Below(fs, b)
  {}
}
