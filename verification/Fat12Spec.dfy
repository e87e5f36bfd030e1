/** The FAT12 image builder (tools/mkiso.py, build_fat12_esp): where everything is put. */
module Fat12Spec {
  import opened Wrappers
  import opened ByteBuffers
  import opened FatReader
  import opened FatDirectories
  import opened Fat12Table

  const PER_CLUSTER: nat := 4
  const CLUSTER: nat := 2048
  const RESERVED: nat := 1
  const COPIES: nat := 2
  const ROOT_ENTRIES: nat := 64
  const ROOT_BYTES: nat := 2048
  const DATA_SECTOR: nat := 7

  const CL_EFI: nat := 2
  const CL_EFIBOOT: nat := 3
  const CL_BOOT: nat := 4
  const CL_BOOTX64: nat := 5

  /** Clusters a file takes; an empty file takes none. */
  function Ncl(size: nat): (n: nat)
    ensures size <= n * CLUSTER < size + CLUSTER && (n == 0 <==> size == 0)
  {
    (size + CLUSTER - 1) / CLUSTER
  }

  function KernelAt(boot: seq<byte>): nat { CL_BOOTX64 + Ncl(|boot|) }
  function LastCluster(boot: seq<byte>, kernel: seq<byte>): nat { KernelAt(boot) + Ncl(|kernel|) - 1 }

  /** Sectors of the image, up to a multiple of four. */
  function Sectors(boot: seq<byte>, kernel: seq<byte>): nat {
    (DATA_SECTOR + (LastCluster(boot, kernel) - 2 + 1) * PER_CLUSTER + 3) / 4 * 4
  }

  /** Where a cluster begins in the image. */
  function Clo(cl: nat): nat
    requires cl >= 2
  {
    (DATA_SECTOR + (cl - 2) * PER_CLUSTER) * SECTOR
  }

  lemma CloIsOffset(cl: nat)
    requires cl >= 2
    ensures Clo(cl) == DATA_SECTOR * SECTOR + Offset(cl, CLUSTER)
  {}

  /** Every cluster fits the image, whose size is whole ISO sectors. */
  lemma EverythingFits(boot: seq<byte>, kernel: seq<byte>)
    ensures Clo(KernelAt(boot)) + |kernel| <= Clo(LastCluster(boot, kernel) + 1) <= Sectors(boot, kernel) * SECTOR
    ensures Clo(CL_BOOTX64) + |boot| <= Clo(KernelAt(boot))
    ensures Sectors(boot, kernel) * SECTOR % 2048 == 0
  {}

  // ---- The table --------------------------------------------------------------------------

  function FixedLinks(): Links { map[0 := 0xFF8, 1 := 0xFFF, CL_EFI := 0xFFF, CL_EFIBOOT := 0xFFF, CL_BOOT := 0xFFF] }

  function AllLinks(n1: nat, n2: nat): Links {
    AllocChain(AllocChain(FixedLinks(), CL_BOOTX64, n1), CL_BOOTX64 + n1, n2)
  }

  /** The entries of a packed table. */
  function Unpack(table: seq<byte>): (fat: seq<nat>)
    ensures |fat| == 2 * |table| / 3
    ensures forall i | 0 <= i < |fat| :: 3 * i / 2 + 1 < |table| && fat[i] == Decode(table, i)
  {
    seq(2 * |table| / 3, i requires 0 <= i < 2 * |table| / 3 => Decode(table, i))
  }

  /** Entries link `n` clusters from `first` on, as far as the table goes. */
  ghost predicate LinksTo(fat: seq<nat>, first: nat, n: nat) {
    && (forall i | first <= i < first + n - 1 && i < |fat| :: fat[i] == i + 1)
    && (n > 0 && first + n <= |fat| ==> fat[first + n - 1] == EOC)
  }

  /** A table of one sector that links the directories and the two files; every other cluster is free. */
  ghost predicate TableOk(table: seq<byte>, n1: nat, n2: nat) {
    && |table| == SECTOR
    && Unpack(table)[0] == 0xFF8 && Unpack(table)[1] == 0xFFF
    && (forall cl | CL_EFI <= cl <= CL_BOOT :: Unpack(table)[cl] == EOC)
    && (forall i | CL_BOOTX64 + n1 + n2 <= i < |Unpack(table)| :: Unpack(table)[i] == 0)
    && LinksTo(Unpack(table), CL_BOOTX64, n1) && LinksTo(Unpack(table), CL_BOOTX64 + n1, n2)
  }

  lemma LinksOfAll(n1: nat, n2: nat)
    ensures var all := AllLinks(n1, n2);
      && Get(all, 0) == 0xFF8 && Get(all, 1) == 0xFFF
      && (forall i: nat | i >= CL_BOOTX64 + n1 + n2 :: Get(all, i) == 0)
      && (forall cl | CL_EFI <= cl <= CL_BOOT :: Get(all, cl) == EOC)
      && (forall i: nat | CL_BOOTX64 <= i < CL_BOOTX64 + n1 - 1 && i < ENTRIES :: Get(all, i) == i + 1)
      && (n1 > 0 ==> Get(all, CL_BOOTX64 + n1 - 1) == EOC)
      && (forall i: nat | CL_BOOTX64 + n1 <= i < CL_BOOTX64 + n1 + n2 - 1 && i < ENTRIES :: Get(all, i) == i + 1)
      && (n2 > 0 ==> Get(all, CL_BOOTX64 + n1 + n2 - 1) == EOC)
  {
    hide AllocChain;
    AllocChainLinks(FixedLinks(), CL_BOOTX64, n1);
    AllocChainLinks(AllocChain(FixedLinks(), CL_BOOTX64, n1), CL_BOOTX64 + n1, n2);
  }

  /** A table that holds all links, up to the last cluster, is as it should be. */
  lemma TableHolds(table: seq<byte>, n1: nat, n2: nat)
    requires |table| == SECTOR
    requires forall i: nat | i < ENTRIES ::
      3 * i / 2 + 1 < SECTOR
      && Decode(table, i) == if i <= CL_BOOTX64 + n1 + n2 then Get(AllLinks(n1, n2), i) else 0
    ensures TableOk(table, n1, n2)
  {
    hide Decode, Get, AllLinks;
    LinksOfAll(n1, n2);
  }

  // ---- The image --------------------------------------------------------------------------

  function RootEntries(efi: nat, boot: nat): (es: seq<seq<byte>>)
    ensures |es| == 2 && forall e | e in es :: |e| == ENTRY
  {
    [De(EfiName(), BlankName(), efi, 0, ADIR), De(BootName(), BlankName(), boot, 0, ADIR)]
  }

  function EfiEntries(eb: nat): (es: seq<seq<byte>>)
    ensures |es| == 3 && forall e | e in es :: |e| == ENTRY
  {
    Dots(CL_EFI, 0) + [De(BootName(), BlankName(), eb, 0, ADIR)]
  }

  function EfiBootEntries(size: nat): (es: seq<seq<byte>>)
    requires size < 0x1_0000_0000
    ensures |es| == 3 && forall e | e in es :: |e| == ENTRY
  {
    Dots(CL_EFIBOOT, CL_EFI) + [De(Bootx64Name(), EfiName(), CL_BOOTX64, size, AFILE)]
  }

  function BootEntries(cl: nat, size: nat): (es: seq<seq<byte>>)
    requires size < 0x1_0000_0000
    ensures |es| == 3 && forall e | e in es :: |e| == ENTRY
  {
    Dots(CL_BOOT, 0) + [De(MicrontName(), ElfName(), cl, size, AFILE)]
  }

  function RootDirectory(efi: nat, boot: nat): (d: seq<byte>)
    ensures |d| == ROOT_BYTES
  {
    Directory(RootEntries(efi, boot), ROOT_BYTES)
  }

  function EfiDirectory(eb: nat): (d: seq<byte>)
    ensures |d| == CLUSTER
  {
    Directory(EfiEntries(eb), CLUSTER)
  }

  function EfiBootDirectory(size: nat): (d: seq<byte>)
    requires size < 0x1_0000_0000
    ensures |d| == CLUSTER
  {
    Directory(EfiBootEntries(size), CLUSTER)
  }

  function BootDirectory(cl: nat, size: nat): (d: seq<byte>)
    requires size < 0x1_0000_0000
    ensures |d| == CLUSTER
  {
    Directory(BootEntries(cl, size), CLUSTER)
  }

  /** The geometry, at offset 11. */
  function Geometry(total: nat): (g: seq<byte>)
    requires total < 0x1_0000
    ensures |g| == 13
  {
    Le16(SECTOR) + [PER_CLUSTER] + Le16(RESERVED) + [COPIES] + Le16(ROOT_ENTRIES) + Le16(total) + [0xF8] + Le16(1)
  }

  /** The fields of the boot sector; adjacent ones are written together. */
  function BootFields(total: nat): seq<Field>
    requires total < 0x1_0000
  {
    [Field(0, [0xEB, 0x3C, 0x90, 0x4D, 0x53, 0x57, 0x49, 0x4E, 0x34, 0x2E, 0x31]), Field(11, Geometry(total)),
     Field(24, Le16(1) + Le16(1) + Le32(0) + Le32(0)), Field(36, [0x80]), Field(38, [0x29] + Le32(0xDEAD_BEEF)),
     Field(43, [0x4D, 0x49, 0x43, 0x52, 0x4F, 0x4E, 0x54, 0x2D, 0x45, 0x53, 0x50,
                0x46, 0x41, 0x54, 0x31, 0x32, 0x20, 0x20, 0x20]),
     Field(510, [0x55, 0xAA])]
  }

  ghost predicate BootSectorOk(bs: seq<byte>, total: nat) {
    |bs| == SECTOR && total < 0x1_0000 && Filled(bs, BootFields(total))
  }

  lemma GeometryParts(total: nat)
    requires total < 0x1_0000
    ensures var g := Geometry(total);
      && At(g, 0, Le16(SECTOR)) && At(g, 2, [PER_CLUSTER]) && At(g, 3, Le16(RESERVED)) && At(g, 5, [COPIES])
      && At(g, 6, Le16(ROOT_ENTRIES)) && At(g, 8, Le16(total)) && At(g, 10, [0xF8]) && At(g, 11, Le16(1))
  {
    hide Le16;
  }

  lemma BootSectorSize(bs: seq<byte>, total: nat)
    requires BootSectorOk(bs, total)
    ensures |bs| == SECTOR
  {}

  /** The fields that the reader uses. */
  lemma GeometryIn(bs: seq<byte>, total: nat)
    requires BootSectorOk(bs, total)
    ensures At(bs, 11, Le16(SECTOR)) && At(bs, 13, [PER_CLUSTER]) && At(bs, 14, Le16(RESERVED)) && At(bs, 16, [COPIES])
    ensures At(bs, 17, Le16(ROOT_ENTRIES)) && At(bs, 19, Le16(total)) && At(bs, 21, [0xF8]) && At(bs, 22, Le16(1))
  {
    hide At, Le16, Le32, Geometry, Blank;
    assert BootFields(total)[1] == Field(11, Geometry(total));
    GeometryParts(total);
    AtPart(bs, 11, Geometry(total), 0, Le16(SECTOR));
    AtPart(bs, 11, Geometry(total), 2, [PER_CLUSTER]);
    AtPart(bs, 11, Geometry(total), 3, Le16(RESERVED));
    AtPart(bs, 11, Geometry(total), 5, [COPIES]);
    AtPart(bs, 11, Geometry(total), 6, Le16(ROOT_ENTRIES));
    AtPart(bs, 11, Geometry(total), 8, Le16(total));
    AtPart(bs, 11, Geometry(total), 10, [0xF8]);
    AtPart(bs, 11, Geometry(total), 11, Le16(1));
  }

  /** What the builder puts where, in order. */
  ghost function Parts(bs: seq<byte>, table: seq<byte>, boot: seq<byte>, kernel: seq<byte>): seq<Field>
    requires |boot| < 0x1_0000_0000 && |kernel| < 0x1_0000_0000
  {
    [Field(0, bs), Field(SECTOR, table), Field(2 * SECTOR, table), Field(3 * SECTOR, RootDirectory(CL_EFI, CL_BOOT)),
     Field(Clo(CL_EFI), EfiDirectory(CL_EFIBOOT)), Field(Clo(CL_EFIBOOT), EfiBootDirectory(|boot|)),
     Field(Clo(CL_BOOT), BootDirectory(KernelAt(boot), |kernel|)), Field(Clo(CL_BOOTX64), boot),
       Field(Clo(KernelAt(boot)), kernel)]
  }

  /** An image that holds the two files: the boot sector, two equal tables, the directories, the
      contents, and zeros elsewhere. */
  ghost predicate Built(img: seq<byte>, bs: seq<byte>, table: seq<byte>, boot: seq<byte>, kernel: seq<byte>)
    requires |boot| < 0x1_0000_0000 && |kernel| < 0x1_0000_0000
  {
    && |img| == Sectors(boot, kernel) * SECTOR && BootSectorOk(bs, Sectors(boot, kernel))
    && TableOk(table, Ncl(|boot|), Ncl(|kernel|)) && Filled(img, Parts(bs, table, boot, kernel))
  }
}
