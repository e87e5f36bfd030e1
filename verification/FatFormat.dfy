/** What the builders write, byte for byte: names as text, numbers as little-endian words, at the offsets
    that the FAT specification (fatgen103) gives, independent of the functions that encode them. */
module FatFormat {
  import opened Wrappers
  import opened ByteBuffers
  import opened FatReader
  import opened FatDirectories
  import Fat12Table
  import Fat12Spec
  import Fat12RoundTrip
  import Fat32Spec
  import Fat32RoundTrip

  /** ASCII text. */
  function Text(s: string): (t: seq<byte>)
    ensures |t| == |s|
  {
    seq(|s|, i requires 0 <= i < |s| => if s[i] as int < 0x80 then s[i] as int else 0x3F)
  }

  /** `n` bytes as a number, least significant first. */
  function Word(s: seq<byte>, off: nat, n: nat): nat
    requires off + n <= |s|
    decreases n
  {
    if n == 0 then 0 else s[off] + 0x100 * Word(s, off + 1, n - 1)
  }

  lemma WordIs(s: seq<byte>, off: nat)
    ensures off + 2 <= |s| ==> Word(s, off, 2) == U16(s, off)
    ensures off + 4 <= |s| ==> Word(s, off, 4) == U32(s, off)
  {
    if off + 2 <= |s| {
      assert Word(s, off + 1, 1) == s[off + 1] + 0x100 * Word(s, off + 2, 0);
    }
    if off + 4 <= |s| {
      assert Word(s, off + 3, 1) == s[off + 3] + 0x100 * Word(s, off + 4, 0);
      assert Word(s, off + 2, 2) == s[off + 2] + 0x100 * Word(s, off + 3, 1);
      assert Word(s, off + 1, 3) == s[off + 1] + 0x100 * Word(s, off + 2, 2);
    }
  }

  lemma Word16(s: seq<byte>, off: nat, n: nat)
    requires n < 0x1_0000 && At(s, off, Le16(n))
    ensures off + 2 <= |s| && Word(s, off, 2) == n
  {
    hide Word, U16;
    AtU16(s, off, n);
    WordIs(s, off);
  }

  lemma Word32(s: seq<byte>, off: nat, n: nat)
    requires n < 0x1_0000_0000 && At(s, off, Le32(n))
    ensures off + 4 <= |s| && Word(s, off, 4) == n
  {
    hide Word, U32;
    AtU32(s, off, n);
    WordIs(s, off);
  }

  lemma {:induction false} ZeroWord(s: seq<byte>, off: nat, n: nat)
    requires off + n <= |s| && forall i | off <= i < off + n :: s[i] == 0
    ensures Word(s, off, n) == 0
    decreases n
  {
    if n > 0 { ZeroWord(s, off + 1, n - 1); }
  }

  // ---- Names -----------------------------------------------------------------------------------------

  /** The names in the directories, and the paths that lead to the bootloader and the kernel. */
  lemma Names()
    ensures Name(EfiName(), BlankName()) == Text("EFI        ")
    ensures Name(BootName(), BlankName()) == Text("BOOT       ")
    ensures Name(Bootx64Name(), EfiName()) == Text("BOOTX64 EFI")
    ensures Name(MicrontName(), ElfName()) == Text("MICRONT ELF")
    ensures Name(DotName(), [0x20, 0x20]) == Text(".          ")
    ensures Name(DotDotName(), [0x20]) == Text("..         ")
  {}

  lemma TextPaths()
    ensures Fat32RoundTrip.EfiPath(Name(Bootx64Name(), EfiName()))
      == [Text("EFI        "), Text("BOOT       "), Text("BOOTX64 EFI")]
    ensures Fat32RoundTrip.BootPath(Name(MicrontName(), ElfName())) == [Text("BOOT       "), Text("MICRONT ELF")]
  {
    hide Name, Text;
    Names();
  }

  /** The files of a FAT32 partition, asked for by the text of their paths. */
  lemma Paths32(img: seq<byte>, ps: nat, fatSec: nat, bs: seq<byte>, fat: seq<byte>, files: seq<seq<byte>>,
                extras: seq<Fat32Spec.Extra>)
    requires |files| == 2 + |extras| && Fat32Spec.Small(files) && Fat32Spec.Numbered(files)
    requires Fat32Spec.Built(img, ps, fatSec, bs, fat, files, extras)
    ensures Fat32RoundTrip.Mount32(img).Some?
    ensures var v := Fat32RoundTrip.Mount32(img).value;
      && ReadPath(v, v.root, [Text("EFI        "), Text("BOOT       "), Text("BOOTX64 EFI")])
           == Fat32Spec.Readable(fatSec, files, 0)
      && ReadPath(v, v.root, [Text("BOOT       "), Text("MICRONT ELF")]) == Fat32Spec.Readable(fatSec, files, 1)
  {
    hide Name, Text, ReadPath, Fat32Spec.Built, Fat32RoundTrip.Mount32, Fat32Spec.Readable, Fat32Spec.Small,
      Fat32RoundTrip.EfiPath, Fat32RoundTrip.BootPath, Fat32Spec.Numbered, Bootx64Name, MicrontName, EfiName, ElfName;
    TextPaths();
    Fat32RoundTrip.BootloaderReadsBack(img, ps, fatSec, bs, fat, files, extras);
    Fat32RoundTrip.KernelReadsBack(img, ps, fatSec, bs, fat, files, extras);
  }

  /** The files of a FAT12 image. */
  lemma Paths12(img: seq<byte>, bs: seq<byte>, table: seq<byte>, boot: seq<byte>, kernel: seq<byte>)
    requires |boot| < 0x1_0000_0000 && |kernel| < 0x1_0000_0000 && Fat12Spec.Built(img, bs, table, boot, kernel)
    ensures Fat12RoundTrip.Mount12(img).Some?
    ensures var v, n1, n2 := Fat12RoundTrip.Mount12(img).value, (|boot| + 2047) / 2048, (|kernel| + 2047) / 2048;
      && ReadPath(v, v.root, [Text("EFI        "), Text("BOOT       "), Text("BOOTX64 EFI")])
           == (if boot == [] || 5 + n1 <= 341 then Some(boot) else None)
      && ReadPath(v, v.root, [Text("BOOT       "), Text("MICRONT ELF")])
           == if kernel == [] || 5 + n1 + n2 <= 341 then Some(kernel) else None
  {
    hide Name, Text, ReadPath, Fat12Spec.Built, Fat12RoundTrip.Mount12;
    Names();
    Fat12RoundTrip.BootloaderReadsBack(img, bs, table, boot, kernel);
    Fat12RoundTrip.KernelReadsBack(img, bs, table, boot, kernel);
  }

  // ---- Directory entries ---------------------------------------------------------------------------------

  /** The fields of an entry: the padded name, the attributes, the first cluster in two halves, the size,
      and zeros for the times. */
  lemma EntryBytes(dir: seq<byte>, off: nat, n8: seq<byte>, e3: seq<byte>, cl: nat, size: nat, attr: byte)
    requires size < 0x1_0000_0000 && cl < 0x1_0000_0000 && At(dir, off, De(n8, e3, cl, size, attr))
    ensures off + 32 <= |dir|
    ensures forall i | 0 <= i < 8 :: dir[off + i] == if i < |n8| then n8[i] else 0x20
    ensures forall i | off + 8 <= i < off + 11 :: dir[i] == if i - off - 8 < |e3| then e3[i - off - 8] else 0x20
    ensures dir[off + 11] == attr
    ensures forall i | off + 12 <= i < off + 20 || off + 22 <= i < off + 26 :: dir[i] == 0
    ensures Word(dir, off + 20, 2) * 0x1_0000 + Word(dir, off + 26, 2) == cl && Word(dir, off + 28, 4) == size
  {
    hide Word, U16, U32, Le16, Le32, FirstCluster;
    var e := De(n8, e3, cl, size, attr);
    DeFields(dir, off, n8, e3, cl, size, attr);
    NameBytes(n8, e3);
    EntryAt(dir, off, e);
    NoTimes(n8, e3, cl, size, attr);
    forall i | off + 8 <= i < off + 11 ensures dir[i] == if i - off - 8 < |e3| then e3[i - off - 8] else 0x20 {
      assert dir[off + (i - off)] == e[i - off] && e[i - off] == Name(n8, e3)[i - off];
    }
    forall i | off + 12 <= i < off + 20 || off + 22 <= i < off + 26 ensures dir[i] == 0 {
      assert dir[off + (i - off)] == e[i - off];
    }
    WordIs(dir, off + 20);
    WordIs(dir, off + 26);
    WordIs(dir, off + 28);
    ClusterIs(dir, off);
  }

  lemma NoTimes(n8: seq<byte>, e3: seq<byte>, cl: nat, size: nat, attr: byte)
    requires size < 0x1_0000_0000
    ensures var e := De(n8, e3, cl, size, attr);
      && e[..11] == Name(n8, e3) && forall i | 12 <= i < 20 || 22 <= i < 26 :: e[i] == 0
  {
    hide Ljust, Le16, Le32;
  }

  lemma ClusterIs(dir: seq<byte>, off: nat)
    requires off + 32 <= |dir|
    ensures FirstCluster(dir, off) == U16(dir, off + 20) * 0x1_0000 + U16(dir, off + 26)
  {}

  lemma EntryAt(s: seq<byte>, off: nat, e: seq<byte>)
    requires At(s, off, e)
    ensures forall i | 0 <= i < |e| :: s[off + i] == e[i]
  {
    forall i | 0 <= i < |e| ensures s[off + i] == e[i] { AtByte(s, off, e, i); }
  }

  lemma NameBytes(n8: seq<byte>, e3: seq<byte>)
    ensures forall i | 0 <= i < 8 :: Name(n8, e3)[i] == if i < |n8| then n8[i] else 0x20
    ensures forall i | 8 <= i < 11 :: Name(n8, e3)[i] == if i - 8 < |e3| then e3[i - 8] else 0x20
  {}

  /** The 32 bytes at `at` are the entry with this name, these attributes, first cluster and size. */
  ghost predicate EntryIs(img: seq<byte>, at: nat, name: seq<byte>, attr: byte, cl: nat, size: nat) {
    && at + 32 <= |img| && img[at..at + 11] == name && img[at + 11] == attr
    && (forall i | at + 12 <= i < at + 20 || at + 22 <= i < at + 26 :: img[i] == 0)
    && Word(img, at + 20, 2) * 0x1_0000 + Word(img, at + 26, 2) == cl && Word(img, at + 28, 4) == size
  }

  /** A directory in which "." leads to one cluster and ".." to another. */
  ghost predicate DotsLead(img: seq<byte>, at: nat, self: nat, parent: nat) {
    EntryIs(img, at, Text(".          "), 0x10, self, 0) && EntryIs(img, at + 32, Text("..         "), 0x10, parent, 0)
  }

  lemma EntryThere(img: seq<byte>, at: nat, n8: seq<byte>, e3: seq<byte>, cl: nat, size: nat, attr: byte)
    requires cl < 0x1_0000_0000 && size < 0x1_0000_0000 && At(img, at, De(n8, e3, cl, size, attr))
    ensures EntryIs(img, at, Name(n8, e3), attr, cl, size)
  {
    hide At, De, Name, Word, FirstCluster, U16, U32;
    DeFields(img, at, n8, e3, cl, size, attr);
    EntryBytes(img, at, n8, e3, cl, size, attr);
  }

  /** Entry `k` of a directory at `at`. */
  lemma ThereAt(img: seq<byte>, at: nat, es: seq<seq<byte>>, bytes: nat, k: nat, n8: seq<byte>, e3: seq<byte>, cl: nat,
                size: nat, attr: byte)
    requires (forall e | e in es :: |e| == ENTRY) && ENTRY * |es| <= bytes && k < |es|
    requires cl < 0x1_0000_0000 && size < 0x1_0000_0000 && es[k] == De(n8, e3, cl, size, attr)
    requires At(img, at, Directory(es, bytes))
    ensures EntryIs(img, at + 32 * k, Name(n8, e3), attr, cl, size)
  {
    hide Directory, At, De, Name, EntryIs;
    DirectoryAt(es, bytes, k);
    AtPart(img, at, Directory(es, bytes), 32 * k, es[k]);
    EntryThere(img, at + 32 * k, n8, e3, cl, size, attr);
  }

  lemma DotsAt(img: seq<byte>, at: nat, es: seq<seq<byte>>, bytes: nat, self: nat, parent: nat)
    requires (forall e | e in es :: |e| == ENTRY) && ENTRY * |es| <= bytes && |es| >= 2
    requires self < 0x1_0000_0000 && parent < 0x1_0000_0000
    requires es[0] == Dots(self, parent)[0] && es[1] == Dots(self, parent)[1] && At(img, at, Directory(es, bytes))
    ensures DotsLead(img, at, self, parent)
  {
    hide Directory, At, De, EntryIs, Text, Name;
    ThereAt(img, at, es, bytes, 0, DotName(), [0x20, 0x20], self, 0, ADIR);
    ThereAt(img, at, es, bytes, 1, DotDotName(), [0x20], parent, 0, ADIR);
    Names();
  }

  /** Where the four directories of a FAT32 partition are. */
  lemma DirectoriesAt(img: seq<byte>, ps: nat, fatSec: nat, bs: seq<byte>, fat: seq<byte>, files: seq<seq<byte>>,
                      extras: seq<Fat32Spec.Extra>)
    requires |files| == 2 + |extras| && Fat32Spec.Small(files)
    requires Fat32Spec.Built(img, ps, fatSec, bs, fat, files, extras)
    ensures var start := (32 + 2 * fatSec) * 512;
      && At(img, start, Directory(Fat32Spec.RootEntries(3, 5), 512))
      && At(img, start + 512, Directory(Fat32Spec.EfiEntries(4), 512))
      && At(img, start + 1024, Directory(Fat32Spec.EfiBootEntries(|files[0]|), 512))
      && At(img, start + 1536, Directory(Fat32Spec.BootEntries(files, extras, Fat32Spec.Listed(extras)), 512))
  {
    hide At, Directory, Fat32Spec.TablesPlaced, Fat32Spec.FilesPlaced, Fat32Spec.BootSectorOk, Fat32Spec.BootEntries,
      Fat32Spec.Clo, Fat32Spec.RootDirectory, Fat32Spec.EfiDirectory, Fat32Spec.EfiBootDirectory,
      Fat32Spec.BootDirectory;
    DirectoriesAre(fatSec, files, extras);
  }

  lemma DirectoriesAre(fatSec: nat, files: seq<seq<byte>>, extras: seq<Fat32Spec.Extra>)
    requires |files| == 2 + |extras| && Fat32Spec.Small(files)
    ensures Fat32Spec.RootDirectory(3, 5) == Directory(Fat32Spec.RootEntries(3, 5), 512)
    ensures Fat32Spec.EfiDirectory(4) == Directory(Fat32Spec.EfiEntries(4), 512)
    ensures Fat32Spec.EfiBootDirectory(|files[0]|) == Directory(Fat32Spec.EfiBootEntries(|files[0]|), 512)
    ensures Fat32Spec.BootDirectory(files, extras)
      == Directory(Fat32Spec.BootEntries(files, extras, Fat32Spec.Listed(extras)), 512)
    ensures var start := (32 + 2 * fatSec) * 512;
      Fat32Spec.Clo(fatSec, 2) == start && Fat32Spec.Clo(fatSec, 3) == start + 512
      && Fat32Spec.Clo(fatSec, 4) == start + 1024 && Fat32Spec.Clo(fatSec, 5) == start + 1536
  {
    hide Directory, Fat32Spec.BootEntries, Fat32Spec.RootEntries, Fat32Spec.EfiEntries, Fat32Spec.EfiBootEntries;
  }

  /** They are clusters 2 to 5: the root's parent is 0, that of /EFI/ and /boot/ is 2, and that of
      /EFI/BOOT/ is 3. */
  lemma Dots32(img: seq<byte>, ps: nat, fatSec: nat, bs: seq<byte>, fat: seq<byte>, files: seq<seq<byte>>,
               extras: seq<Fat32Spec.Extra>)
    requires |files| == 2 + |extras| && Fat32Spec.Small(files)
    requires Fat32Spec.Built(img, ps, fatSec, bs, fat, files, extras)
    ensures var start := (32 + 2 * fatSec) * 512;
      DotsLead(img, start, 2, 0) && DotsLead(img, start + 512, 3, 2) && DotsLead(img, start + 1024, 4, 3)
      && DotsLead(img, start + 1536, 5, 2)
  {
    hide DotsLead, At, De, Directory, Fat32Spec.First, Fat32Spec.Built, Dots, Fat32Spec.BootEntries;
    Fat32RoundTrip.BootEntriesShape(files, extras, Fat32Spec.Listed(extras));
    DirectoriesAt(img, ps, fatSec, bs, fat, files, extras);
    var start := (32 + 2 * fatSec) * 512;
    DotsAt(img, start, Fat32Spec.RootEntries(3, 5), 512, 2, 0);
    DotsAt(img, start + 512, Fat32Spec.EfiEntries(4), 512, 3, 2);
    DotsAt(img, start + 1024, Fat32Spec.EfiBootEntries(|files[0]|), 512, 4, 3);
    DotsAt(img, start + 1536, Fat32Spec.BootEntries(files, extras, Fat32Spec.Listed(extras)), 512, 5, 2);
  }

  /** Their other entries: the subdirectories in clusters 3, 4 and 5, and the bootloader in cluster 6. */
  lemma Entries32(img: seq<byte>, ps: nat, fatSec: nat, bs: seq<byte>, fat: seq<byte>, files: seq<seq<byte>>,
                  extras: seq<Fat32Spec.Extra>)
    requires |files| == 2 + |extras| && Fat32Spec.Small(files)
    requires Fat32Spec.Built(img, ps, fatSec, bs, fat, files, extras)
    ensures var start := (32 + 2 * fatSec) * 512;
      && EntryIs(img, start + 64, Text("EFI        "), 0x10, 3, 0)
      && EntryIs(img, start + 96, Text("BOOT       "), 0x10, 5, 0)
      && EntryIs(img, start + 512 + 64, Text("BOOT       "), 0x10, 4, 0)
      && EntryIs(img, start + 1024 + 64, Text("BOOTX64 EFI"), 0x20, 6, |files[0]|)
  {
    hide EntryIs, At, De, Directory, Fat32Spec.Built, Fat32Spec.First, Fat32Spec.BootEntries, Fat32Spec.Listed, Dots,
      Text, Name, EfiName, BootName, BlankName, Bootx64Name, MicrontName, ElfName, DotName, DotDotName;
    Names();
    DirectoriesAt(img, ps, fatSec, bs, fat, files, extras);
    var start := (32 + 2 * fatSec) * 512;
    ThereAt(img, start, Fat32Spec.RootEntries(3, 5), 512, 2, EfiName(), BlankName(), 3, 0, ADIR);
    ThereAt(img, start, Fat32Spec.RootEntries(3, 5), 512, 3, BootName(), BlankName(), 5, 0, ADIR);
    ThereAt(img, start + 512, Fat32Spec.EfiEntries(4), 512, 2, BootName(), BlankName(), 4, 0, ADIR);
    ThereAt(img, start + 1024, Fat32Spec.EfiBootEntries(|files[0]|), 512, 2, Bootx64Name(), EfiName(), 6, |files[0]|,
            AFILE);
  }

  /** The entries of /boot/: the kernel and up to thirteen extra files at their first clusters, with their
      sizes. */
  lemma BootEntries32(img: seq<byte>, ps: nat, fatSec: nat, bs: seq<byte>, fat: seq<byte>, files: seq<seq<byte>>,
                      extras: seq<Fat32Spec.Extra>)
    requires |files| == 2 + |extras| && Fat32Spec.Small(files) && Fat32Spec.Numbered(files)
    requires Fat32Spec.Built(img, ps, fatSec, bs, fat, files, extras)
    ensures var at := (32 + 2 * fatSec + 3) * 512;
      && EntryIs(img, at + 64, Text("MICRONT ELF"), 0x20, Fat32Spec.First(files, 1), |files[1]|)
      && forall k: nat | k < |extras| && k < 13 ::
           EntryIs(img, at + 96 + 32 * k, Name(extras[k].name, extras[k].ext), 0x20, Fat32Spec.First(files, 2 + k),
                   |files[2 + k]|)
  {
    hide EntryIs, At, De, Directory, Fat32Spec.First, Fat32Spec.Built, Dots, Text, Name, Fat32Spec.BootEntries,
      EfiName, BootName, BlankName, Bootx64Name, MicrontName, ElfName, DotName, DotDotName;
    Names();
    DirectoriesAt(img, ps, fatSec, bs, fat, files, extras);
    Fat32Spec.FilesApart(files, 1, |files|);
    Fat32RoundTrip.BootEntriesShape(files, extras, Fat32Spec.Listed(extras));
    var at := (32 + 2 * fatSec + 3) * 512;
    var boot := Fat32Spec.BootEntries(files, extras, Fat32Spec.Listed(extras));
    ThereAt(img, at, boot, 512, 2, MicrontName(), ElfName(), Fat32Spec.First(files, 1), |files[1]|, AFILE);
    forall k: nat | k < |extras| && k < 13
      ensures EntryIs(img, at + 96 + 32 * k, Name(extras[k].name, extras[k].ext), 0x20, Fat32Spec.First(files, 2 + k),
                      |files[2 + k]|)
    {
      ExtraThere(img, at, files, extras, k);
    }
  }

  lemma ExtraThere(img: seq<byte>, at: nat, files: seq<seq<byte>>, extras: seq<Fat32Spec.Extra>, k: nat)
    requires |files| == 2 + |extras| && Fat32Spec.Small(files) && Fat32Spec.Numbered(files)
    requires k < Fat32Spec.Listed(extras)
    requires At(img, at, Directory(Fat32Spec.BootEntries(files, extras, Fat32Spec.Listed(extras)), 512))
    ensures EntryIs(img, at + 96 + 32 * k, Name(extras[k].name, extras[k].ext), 0x20, Fat32Spec.First(files, 2 + k),
                    |files[2 + k]|)
  {
    hide EntryIs, At, De, Directory, Fat32Spec.First, Name, Fat32Spec.BootEntries;
    Fat32Spec.FilesApart(files, 2 + k, |files|);
    Fat32Spec.BootEntryAt(files, extras, Fat32Spec.Listed(extras), k);
    ThereAt(img, at, Fat32Spec.BootEntries(files, extras, Fat32Spec.Listed(extras)), 512, 3 + k, extras[k].name,
            extras[k].ext, Fat32Spec.First(files, 2 + k), |files[2 + k]|, AFILE);
  }

  // ---- The reserved sectors of a FAT32 partition -------------------------------------------------------------

  /** The boot sector: jump and name, geometry, and sizes. */
  predicate BootSector32(bs: seq<byte>, ps: nat, hidden: nat, fatSec: nat) {
    && |bs| == 512 && bs[..11] == [0xEB, 0x58, 0x90] + Text("MSWIN4.1")
    && Word(bs, 11, 2) == 512 && bs[13] == 1 && Word(bs, 14, 2) == 32 && bs[16] == 2
    && Word(bs, 17, 4) == 0 && bs[21] == 0xF8 && Word(bs, 22, 2) == 0
    && Word(bs, 24, 2) == 63 && Word(bs, 26, 2) == 255
    && Word(bs, 28, 4) == hidden && Word(bs, 32, 4) == ps && Word(bs, 36, 4) == fatSec
    && BootTail32(bs)
  }

  /** Root cluster 2, FSInfo in sector 1, backup in sector 6, drive, serial number, label, signature. */
  predicate BootTail32(bs: seq<byte>)
    requires |bs| == 512
  {
    && Word(bs, 40, 4) == 0 && Word(bs, 44, 4) == 2 && Word(bs, 48, 2) == 1 && Word(bs, 50, 2) == 6
    && bs[64] == 0x80 && bs[66] == 0x29 && Word(bs, 67, 4) == 0x4E54_4D52
    && bs[71..90] == Text("MICRONT-EFIFAT32   ") && bs[510] == 0x55 && bs[511] == 0xAA
  }

  ghost predicate FsInfo(fsi: seq<byte>) {
    && |fsi| == 512 && Word(fsi, 0, 4) == 0x4161_5252 && Word(fsi, 484, 4) == 0x6141_7272
    && Word(fsi, 488, 4) == 0xFFFF_FFFF && Word(fsi, 492, 4) == 0xFFFF_FFFF && Word(fsi, 508, 4) == 0xAA55_0000
    && forall i | 4 <= i < 484 || 496 <= i < 508 :: fsi[i] == 0
  }

  /** Zeros between the fields of a list. */
  lemma GapIsZero(s: seq<byte>, fs: seq<Field>, i: nat)
    requires Filled(s, fs) && i < |s| && InNone(fs, i)
    ensures s[i] == 0
  {}

  lemma ListedAt(s: seq<byte>, fs: seq<Field>, k: nat)
    requires Filled(s, fs) && k < |fs|
    ensures At(s, fs[k].off, fs[k].data)
  {
    hide At;
  }

  lemma BootHead(bs: seq<byte>, ps: nat, hidden: nat, fatSec: nat)
    requires ps < 0x1_0000_0000 && hidden < 0x1_0000_0000 && fatSec < 0x1_0000_0000 && |bs| == 512
    requires Filled(bs, Fat32Spec.BootFields(ps, hidden, fatSec))
    ensures Word(bs, 11, 2) == 512 && bs[13] == 1 && Word(bs, 14, 2) == 32 && bs[16] == 2
    ensures Word(bs, 24, 2) == 63 && Word(bs, 26, 2) == 255
    ensures Word(bs, 28, 4) == hidden && Word(bs, 32, 4) == ps && Word(bs, 36, 4) == fatSec && Word(bs, 44, 4) == 2
  {
    hide Word, Filled, At, Le16, Le32, Fat32Spec.BootFields;
    Fat32Spec.BootFieldsOk(bs, ps, hidden, fatSec);
    Word16(bs, 11, 512);
    AtByte(bs, 13, [1], 0);
    Word16(bs, 14, 32);
    AtByte(bs, 16, [2], 0);
    Word16(bs, 24, 63);
    Word16(bs, 26, 255);
    Word32(bs, 28, hidden);
    Word32(bs, 32, ps);
    Word32(bs, 36, fatSec);
    Word32(bs, 44, 2);
  }

  lemma BootGaps(bs: seq<byte>, ps: nat, hidden: nat, fatSec: nat)
    requires ps < 0x1_0000_0000 && hidden < 0x1_0000_0000 && fatSec < 0x1_0000_0000 && |bs| == 512
    requires Filled(bs, Fat32Spec.BootFields(ps, hidden, fatSec))
    ensures Word(bs, 17, 4) == 0 && Word(bs, 22, 2) == 0 && Word(bs, 40, 4) == 0
  {
    hide Word, Filled, Le16, Le32, Fat32Spec.Geometry, Fat32Spec.Sizes;
    var fs := Fat32Spec.BootFields(ps, hidden, fatSec);
    forall i: nat | 17 <= i < 21 || 22 <= i < 24 || 40 <= i < 44 ensures bs[i] == 0 {
      GeometrySize();
      GapIsZero(bs, fs, i);
    }
    ZeroWord(bs, 17, 4);
    ZeroWord(bs, 22, 2);
    ZeroWord(bs, 40, 4);
  }

  lemma GeometrySize()
    ensures |Fat32Spec.Geometry(32)| == 6
  {}

  lemma BootEnd(bs: seq<byte>, ps: nat, hidden: nat, fatSec: nat)
    requires ps < 0x1_0000_0000 && hidden < 0x1_0000_0000 && fatSec < 0x1_0000_0000 && |bs| == 512
    requires Filled(bs, Fat32Spec.BootFields(ps, hidden, fatSec))
    ensures bs[..11] == [0xEB, 0x58, 0x90] + Text("MSWIN4.1") && bs[21] == 0xF8
    ensures Word(bs, 48, 2) == 1 && Word(bs, 50, 2) == 6 && bs[64] == 0x80 && bs[66] == 0x29
    ensures Word(bs, 67, 4) == 0x4E54_4D52 && bs[71..90] == Text("MICRONT-EFIFAT32   ")
    ensures bs[510] == 0x55 && bs[511] == 0xAA
  {
    hide Word, Filled, At, Le16, Le32, Text, Fat32Spec.Geometry, Fat32Spec.Sizes;
    var fs := Fat32Spec.BootFields(ps, hidden, fatSec);
    ListedAt(bs, fs, 0);
    ListedAt(bs, fs, 2);
    ListedAt(bs, fs, 5);
    ListedAt(bs, fs, 6);
    ListedAt(bs, fs, 7);
    ListedAt(bs, fs, 8);
    ListedAt(bs, fs, 9);
    Labels();
    AtSlice(bs, 0, fs[0].data);
    AtByte(bs, 21, [0xF8], 0);
    TwoWords(bs, 48, 1, 6);
    AtByte(bs, 64, [0x80], 0);
    AtByte(bs, 66, fs[7].data, 0);
    SerialAt(bs, 66, 0x4E54_4D52);
    AtSlice(bs, 71, fs[8].data);
    AtByte(bs, 510, [0x55, 0xAA], 0);
    AtByte(bs, 510, [0x55, 0xAA], 1);
  }

  lemma TwoWords(s: seq<byte>, off: nat, a: nat, b: nat)
    requires a < 0x1_0000 && b < 0x1_0000 && At(s, off, Le16(a) + Le16(b))
    ensures off + 4 <= |s| && Word(s, off, 2) == a && Word(s, off + 2, 2) == b
  {
    hide Word, Le16;
    AtPart(s, off, Le16(a) + Le16(b), 0, Le16(a));
    AtPart(s, off, Le16(a) + Le16(b), 2, Le16(b));
    Word16(s, off, a);
    Word16(s, off + 2, b);
  }

  lemma SerialAt(s: seq<byte>, off: nat, n: nat)
    requires n < 0x1_0000_0000 && At(s, off, [0x29] + Le32(n))
    ensures off + 5 <= |s| && Word(s, off + 1, 4) == n
  {
    hide Word, Le32;
    AtPart(s, off, [0x29] + Le32(n), 1, Le32(n));
    Word32(s, off + 1, n);
  }

  lemma Labels()
    ensures [0xEB, 0x3C, 0x90] + Text("MSWIN4.1") == [0xEB, 0x3C, 0x90, 0x4D, 0x53, 0x57, 0x49, 0x4E, 0x34, 0x2E, 0x31]
    ensures [0xEB, 0x58, 0x90] + Text("MSWIN4.1") == [0xEB, 0x58, 0x90, 0x4D, 0x53, 0x57, 0x49, 0x4E, 0x34, 0x2E, 0x31]
    ensures Text("MICRONT-EFIFAT32   ") == [0x4D, 0x49, 0x43, 0x52, 0x4F, 0x4E, 0x54, 0x2D, 0x45, 0x46, 0x49,
                                            0x46, 0x41, 0x54, 0x33, 0x32, 0x20, 0x20, 0x20]
    ensures Text("MICRONT-ESPFAT12   ") == [0x4D, 0x49, 0x43, 0x52, 0x4F, 0x4E, 0x54, 0x2D, 0x45, 0x53, 0x50,
                                            0x46, 0x41, 0x54, 0x31, 0x32, 0x20, 0x20, 0x20]
  {}

  lemma InfoIs(fsi: seq<byte>)
    requires |fsi| == 512 && Filled(fsi, Fat32Spec.InfoFields(0xFFFF_FFFF))
    ensures FsInfo(fsi)
  {
    hide Word, Filled, At, Le16, Le32, InNone;
    var fs := Fat32Spec.InfoFields(0xFFFF_FFFF);
    ListedAt(fsi, fs, 0);
    ListedAt(fsi, fs, 1);
    ListedAt(fsi, fs, 2);
    Word32(fsi, 0, 0x4161_5252);
    AtPart(fsi, 484, fs[1].data, 0, Le32(0x6141_7272));
    AtPart(fsi, 484, fs[1].data, 4, Le32(0xFFFF_FFFF));
    AtPart(fsi, 484, fs[1].data, 8, Le32(0xFFFF_FFFF));
    Word32(fsi, 484, 0x6141_7272);
    Word32(fsi, 488, 0xFFFF_FFFF);
    Word32(fsi, 492, 0xFFFF_FFFF);
    Word32(fsi, 508, 0xAA55_0000);
    forall i: nat | 4 <= i < 484 || 496 <= i < 508 ensures fsi[i] == 0 {
      InfoGap(i);
      GapIsZero(fsi, fs, i);
    }
  }

  lemma InfoGap(i: nat)
    requires 4 <= i < 484 || 496 <= i < 508
    ensures InNone(Fat32Spec.InfoFields(0xFFFF_FFFF), i)
  {
    hide Le32;
  }

  /** The first sectors of a built FAT32 partition: boot sector, FSInfo, and the backup in sector 6. */
  lemma Reserved32(img: seq<byte>, ps: nat, hidden: nat, fatSec: nat, bs: seq<byte>, fsi: seq<byte>, fat: seq<byte>,
                   files: seq<seq<byte>>, extras: seq<Fat32Spec.Extra>)
    requires |files| == 2 + |extras| && Fat32Spec.Small(files)
    requires ps < 0x1_0000_0000 && hidden < 0x1_0000_0000 && fatSec < 0x1_0000_0000
    requires Fat32Spec.Complete(img, ps, hidden, fatSec, bs, fsi, fat, files, extras)
    ensures |img| >= 7 * 512 && BootSector32(img[..512], ps, hidden, fatSec) && FsInfo(img[512..1024])
    ensures img[6 * 512..7 * 512] == img[..512]
  {
    hide Filled, At, Word, Text, FsInfo, BootTail32, Fat32Spec.BootFields, Fat32Spec.InfoFields, Fat32Spec.RestFree,
      Fat32Spec.DirectoryParts, Fat32Spec.FileFields;
    var fs := Fat32Spec.Parts(fatSec, bs, fsi, fat, files, extras);
    assert fs[0] == Field(0, bs) && fs[1] == Field(6 * 512, bs) && fs[2] == Field(512, fsi);
    ListedAt(img, fs, 0);
    ListedAt(img, fs, 1);
    ListedAt(img, fs, 2);
    SliceIs(img, 0, bs);
    SliceIs(img, 6 * 512, bs);
    SliceIs(img, 512, fsi);
    BootHead(bs, ps, hidden, fatSec);
    BootGaps(bs, ps, hidden, fatSec);
    BootEnd(bs, ps, hidden, fatSec);
    assert BootTail32(bs) by { TailIs(bs); }
    InfoIs(fsi);
  }

  lemma TailIs(bs: seq<byte>)
    requires |bs| == 512 && Word(bs, 40, 4) == 0 && Word(bs, 44, 4) == 2 && Word(bs, 48, 2) == 1 && Word(bs, 50, 2) == 6
    requires bs[64] == 0x80 && bs[66] == 0x29 && Word(bs, 67, 4) == 0x4E54_4D52
    requires bs[71..90] == Text("MICRONT-EFIFAT32   ") && bs[510] == 0x55 && bs[511] == 0xAA
    ensures BootTail32(bs)
  {
    hide Word, Text;
  }

  lemma SliceIs(s: seq<byte>, off: nat, data: seq<byte>)
    requires At(s, off, data)
    ensures off + |data| <= |s| && s[off..off + |data|] == data
  {
    AtSlice(s, off, data);
  }

  // ---- What is left of a FAT32 partition -------------------------------------------------------------------

  /** The table, in raw words: the two reserved entries, the directories' clusters, and zeros for every
      cluster behind the last file. */
  lemma Table32(img: seq<byte>, ps: nat, hidden: nat, fatSec: nat, bs: seq<byte>, fsi: seq<byte>, fat: seq<byte>,
                files: seq<seq<byte>>, extras: seq<Fat32Spec.Extra>, i: nat)
    requires |files| == 2 + |extras| && Fat32Spec.Small(files)
    requires ps < 0x1_0000_0000 && hidden < 0x1_0000_0000 && fatSec < 0x1_0000_0000
    requires Fat32Spec.Built(img, ps, fatSec, bs, fat, files, extras)
    requires Fat32Spec.Complete(img, ps, hidden, fatSec, bs, fsi, fat, files, extras) && i < fatSec * 128
    ensures 0x4000 + 4 * i + 4 <= |img|
    ensures var e := Word(img, 0x4000 + 4 * i, 4) % 0x1000_0000;
      && (i == 0 ==> e == 0x0FFF_FFF8) && (i == 1 ==> e == 0x0FFF_FFFF) && (2 <= i <= 5 ==> e == 0x0FFF_FFFF)
      && (i >= Fat32Spec.First(files, |files|) ==> e == 0)
      && forall k | 0 <= k < |files| && Fat32Spec.First(files, k) <= i < Fat32Spec.First(files, k + 1) ::
           e == if i + 1 == Fat32Spec.First(files, k + 1) then 0x0FFF_FFFF else (i + 1) % 0x1000_0000
  {
    hide Filled, At, Word, U32, Fat32Spec.BootFields, Fat32Spec.InfoFields, Fat32Spec.Parts, Fat32Spec.First,
      Fat32Spec.DirectoriesPlaced, Fat32Spec.FilesPlaced, Fat32Spec.BootSectorOk, Fat32Spec.Ncl;
    SameWord(img, 0x4000, fat, 4 * i);
    WordIs(img, 0x4000 + 4 * i);
    assert Fat32Spec.Entry(fat, i) == Word(img, 0x4000 + 4 * i, 4) % 0x1000_0000;
    forall k | 0 <= k < |files| && Fat32Spec.First(files, k) <= i < Fat32Spec.First(files, k + 1)
      ensures Fat32Spec.Entry(fat, i) ==
        if i + 1 == Fat32Spec.First(files, k + 1) then 0x0FFF_FFFF else (i + 1) % 0x1000_0000
    {
      FirstNext(files, k);
      assert Fat32Spec.Chained(fat, Fat32Spec.First(files, k), Fat32Spec.Ncl(|files[k]|));
    }
  }

  lemma FirstNext(files: seq<seq<byte>>, k: nat)
    requires k < |files|
    ensures Fat32Spec.First(files, k + 1) == Fat32Spec.First(files, k) + Fat32Spec.Ncl(|files[k]|)
  {}

  lemma SameWord(img: seq<byte>, at: nat, fat: seq<byte>, off: nat)
    requires At(img, at, fat) && off + 4 <= |fat|
    ensures at + off + 4 <= |img| && U32(img, at + off) == U32(fat, off)
  {
    AtByte(img, at, fat, off);
    AtByte(img, at, fat, off + 1);
    AtByte(img, at, fat, off + 2);
    AtByte(img, at, fat, off + 3);
  }

  /** Fields of other files end before cluster `cl` or begin at cluster `next`. */
  lemma {:induction false} FilesElsewhere(fatSec: nat, files: seq<seq<byte>>, n: nat, k: nat, i: nat)
    requires n <= |files| && k < |files|
    requires Fat32Spec.Clo(fatSec, Fat32Spec.First(files, k)) + |files[k]| <= i
    requires i < Fat32Spec.Clo(fatSec, Fat32Spec.First(files, k + 1))
    ensures InNone(Fat32Spec.FileFields(fatSec, files, n), i)
    decreases n
  {
    hide Fat32Spec.Clo, Fat32Spec.First, Fat32Spec.Ncl, InNone;
    if n == 0 {
      NothingIn(i);
    } else {
      FilesElsewhere(fatSec, files, n - 1, k, i);
      var f := Field(Fat32Spec.Clo(fatSec, Fat32Spec.First(files, n - 1)), files[n - 1]);
      FileApart(fatSec, files, n - 1, k, i);
      OneMore(Fat32Spec.FileFields(fatSec, files, n - 1), f, i);
      assert Fat32Spec.FileFields(fatSec, files, n - 1) + [] == Fat32Spec.FileFields(fatSec, files, n - 1);
    }
  }

  lemma NothingIn(i: nat)
    ensures InNone([], i)
  {}

  lemma FileApart(fatSec: nat, files: seq<seq<byte>>, j: nat, k: nat, i: nat)
    requires j < |files| && k < |files|
    requires Fat32Spec.Clo(fatSec, Fat32Spec.First(files, k)) + |files[k]| <= i
    requires i < Fat32Spec.Clo(fatSec, Fat32Spec.First(files, k + 1))
    ensures var at := Fat32Spec.Clo(fatSec, Fat32Spec.First(files, j)); !(at <= i < at + |files[j]|)
  {
    hide Fat32Spec.First, Fat32Spec.Ncl;
    if j < k {
      Fat32Spec.FilesApart(files, j, k);
    } else if j > k {
      Fat32Spec.FilesApart(files, k, j);
      FirstNext(files, k);
    }
  }

  /** Behind its contents the clusters of a file are zero. */
  lemma SlackIsZero(img: seq<byte>, ps: nat, hidden: nat, fatSec: nat, bs: seq<byte>, fsi: seq<byte>, fat: seq<byte>,
                    files: seq<seq<byte>>, extras: seq<Fat32Spec.Extra>, k: nat, i: nat)
    requires |files| == 2 + |extras| && Fat32Spec.Small(files) && k < |files|
    requires ps < 0x1_0000_0000 && hidden < 0x1_0000_0000 && fatSec < 0x1_0000_0000
    requires Fat32Spec.Built(img, ps, fatSec, bs, fat, files, extras)
    requires Fat32Spec.Complete(img, ps, hidden, fatSec, bs, fsi, fat, files, extras)
    requires (32 + 2 * fatSec + Fat32Spec.First(files, k) - 2) * 512 + |files[k]| <= i < |img|
    requires i < (32 + 2 * fatSec + Fat32Spec.First(files, k + 1) - 2) * 512
    ensures img[i] == 0
  {
    hide Filled, At, Fat32Spec.BootFields, Fat32Spec.InfoFields, Fat32Spec.First, InNone, Fat32Spec.FileFields,
      Fat32Spec.TablesPlaced, Fat32Spec.DirectoriesPlaced, Fat32Spec.FilesPlaced, Fat32Spec.BootSectorOk,
      Fat32Spec.ReservedParts, Fat32Spec.DirectoryParts, Fat32Spec.RestFree;
    var head := Fat32Spec.ReservedParts(fatSec, bs, fsi, fat) + Fat32Spec.DirectoryParts(fatSec, files, extras);
    HeadBelow(fatSec, bs, fsi, fat, files, extras, i) by {
      FatIsWhole(img, ps, fatSec, bs, fat, files, extras);
    }
    FilesElsewhere(fatSec, files, |files|, k, i);
    BothElsewhere(head, Fat32Spec.FileFields(fatSec, files, |files|), i);
    GapIsZero(img, Fat32Spec.Parts(fatSec, bs, fsi, fat, files, extras), i);
  }

  lemma FatIsWhole(img: seq<byte>, ps: nat, fatSec: nat, bs: seq<byte>, fat: seq<byte>, files: seq<seq<byte>>,
                   extras: seq<Fat32Spec.Extra>)
    requires |files| == 2 + |extras| && Fat32Spec.Small(files)
    requires Fat32Spec.Built(img, ps, fatSec, bs, fat, files, extras)
    ensures |fat| == fatSec * 512
  {}

  lemma HeadBelow(fatSec: nat, bs: seq<byte>, fsi: seq<byte>, fat: seq<byte>, files: seq<seq<byte>>,
                  extras: seq<Fat32Spec.Extra>, i: nat)
    requires |files| == 2 + |extras| && Fat32Spec.Small(files)
    requires |bs| == 512 && |fsi| == 512 && |fat| == fatSec * 512 && i >= (32 + 2 * fatSec + 4) * 512
    ensures InNone(Fat32Spec.ReservedParts(fatSec, bs, fsi, fat) + Fat32Spec.DirectoryParts(fatSec, files, extras), i)
  {
    hide Fat32Spec.RootDirectory, Fat32Spec.EfiDirectory, Fat32Spec.EfiBootDirectory, Fat32Spec.BootDirectory;
  }

  lemma BothElsewhere(fs: seq<Field>, gs: seq<Field>, i: nat)
    requires InNone(fs, i) && InNone(gs, i)
    ensures InNone(fs + gs, i)
  {}

  // ---- FAT12 images -------------------------------------------------------------------------------------

  /** The boot sector of an image of `total` sectors: one reserved sector, two tables of one sector, 64
      entries in the root directory, clusters of four sectors. */
  predicate BootSector12(bs: seq<byte>, total: nat) {
    && |bs| == 512 && bs[..11] == [0xEB, 0x3C, 0x90] + Text("MSWIN4.1")
    && Word(bs, 11, 2) == 512 && bs[13] == 4 && Word(bs, 14, 2) == 1 && bs[16] == 2 && Word(bs, 17, 2) == 64
    && Word(bs, 19, 2) == total && bs[21] == 0xF8 && Word(bs, 22, 2) == 1 && BootTail12(bs)
  }

  predicate BootTail12(bs: seq<byte>)
    requires |bs| == 512
  {
    && Word(bs, 24, 2) == 1 && Word(bs, 26, 2) == 1 && Word(bs, 28, 4) == 0 && Word(bs, 32, 4) == 0
    && bs[36] == 0x80 && bs[38] == 0x29 && Word(bs, 39, 4) == 0xDEAD_BEEF
    && bs[43..62] == Text("MICRONT-ESPFAT12   ") && bs[510] == 0x55 && bs[511] == 0xAA
  }

  lemma Head12(bs: seq<byte>, total: nat)
    requires Fat12Spec.BootSectorOk(bs, total)
    ensures |bs| == 512 && Word(bs, 11, 2) == 512 && bs[13] == 4 && Word(bs, 14, 2) == 1 && bs[16] == 2
    ensures Word(bs, 17, 2) == 64 && Word(bs, 19, 2) == total && bs[21] == 0xF8 && Word(bs, 22, 2) == 1
  {
    hide Word, At, Le16, Fat12Spec.BootFields, Filled;
    Fat12Spec.GeometryIn(bs, total);
    Word16(bs, 11, 512);
    AtByte(bs, 13, [4], 0);
    Word16(bs, 14, 1);
    AtByte(bs, 16, [2], 0);
    Word16(bs, 17, 64);
    Word16(bs, 19, total);
    AtByte(bs, 21, [0xF8], 0);
    Word16(bs, 22, 1);
  }

  lemma Tail12(bs: seq<byte>, total: nat)
    requires Fat12Spec.BootSectorOk(bs, total)
    ensures |bs| == 512 && bs[..11] == [0xEB, 0x3C, 0x90] + Text("MSWIN4.1") && BootTail12(bs)
  {
    hide Word, At, Le16, Le32, Text, Fat12Spec.Geometry, Filled;
    var fs := Fat12Spec.BootFields(total);
    ListedAt(bs, fs, 0);
    ListedAt(bs, fs, 2);
    ListedAt(bs, fs, 3);
    ListedAt(bs, fs, 4);
    ListedAt(bs, fs, 5);
    ListedAt(bs, fs, 6);
    Labels();
    AtSlice(bs, 0, fs[0].data);
    TracksAt(bs);
    AtByte(bs, 36, [0x80], 0);
    AtByte(bs, 38, fs[4].data, 0);
    SerialAt(bs, 38, 0xDEAD_BEEF);
    AtSlice(bs, 43, fs[5].data);
    AtByte(bs, 510, [0x55, 0xAA], 0);
    AtByte(bs, 510, [0x55, 0xAA], 1);
  }

  lemma TracksAt(bs: seq<byte>)
    requires At(bs, 24, Le16(1) + Le16(1) + Le32(0) + Le32(0))
    ensures |bs| >= 36 && Word(bs, 24, 2) == 1 && Word(bs, 26, 2) == 1 && Word(bs, 28, 4) == 0 && Word(bs, 32, 4) == 0
  {
    hide Word, Le16, Le32;
    SplitAt(bs, 24, Le16(1) + Le16(1), Le32(0), Le32(0));
    TwoWords(bs, 24, 1, 1);
    Word32(bs, 28, 0);
    Word32(bs, 32, 0);
  }

  lemma SplitAt(s: seq<byte>, off: nat, a: seq<byte>, b: seq<byte>, c: seq<byte>)
    requires At(s, off, a + b + c)
    ensures At(s, off, a) && At(s, off + |a|, b) && At(s, off + |a| + |b|, c)
  {
    AtPart(s, off, a + b + c, 0, a);
    AtPart(s, off, a + b + c, |a|, b);
    AtPart(s, off, a + b + c, |a| + |b|, c);
  }

  /** A pair of 12-bit entries is one 24-bit word. */
  lemma PairWord(table: seq<byte>, k: nat)
    requires 3 * k + 3 <= |table|
    ensures 3 * (2 * k + 1) / 2 + 1 < |table|
    ensures Word(table, 3 * k, 3) == Fat12Table.Decode(table, 2 * k) + 0x1000 * Fat12Table.Decode(table, 2 * k + 1)
  {
    hide Fat12Table.Decode;
    Fat12Table.EvenEntry(table, k);
    Fat12Table.OddEntry(table, k);
    var a: int, b: int, c: int := table[3 * k], table[3 * k + 1], table[3 * k + 2];
    assert Word(table, 3 * k + 2, 1) == c + 0x100 * Word(table, 3 * k + 3, 0);
    assert Word(table, 3 * k + 1, 2) == b + 0x100 * Word(table, 3 * k + 2, 1);
    assert b == b / 16 * 16 + b % 16;
  }

  /** The size of an image: the smallest multiple of four sectors that holds seven sectors and all
      clusters up to the last one. */
  lemma Size12(boot: seq<byte>, kernel: seq<byte>)
    ensures var n, clusters := Fat12Spec.Sectors(boot, kernel), 3 + (|boot| + 2047) / 2048 + (|kernel| + 2047) / 2048;
      n % 4 == 0 && 7 + 4 * clusters <= n < 7 + 4 * clusters + 4
  {}

  /** The sectors and directories of a built image, and what is in no part of it. */
  lemma Image12(img: seq<byte>, bs: seq<byte>, table: seq<byte>, boot: seq<byte>, kernel: seq<byte>)
    requires |boot| < 0x1_0000_0000 && |kernel| < 0x1_0000_0000 && Fat12Spec.Built(img, bs, table, boot, kernel)
    ensures |img| >= 13 * 512 && BootSector12(img[..512], |img| / 512)
    ensures DotsLead(img, 7 * 512, 2, 0) && DotsLead(img, 11 * 512, 3, 2) && DotsLead(img, 15 * 512, 4, 0)
    ensures forall i: nat | i < |img| && InNone(Fat12Spec.Parts(bs, table, boot, kernel), i) :: img[i] == 0
  {
    hide At, AllAt, Word, Text, DotsLead, BootTail12, De, Dots, Directory, InNone, Fat12Spec.TableOk,
      Fat12Spec.BootSectorOk;
    Fat12RoundTrip.HeadParts(img, bs, table, boot, kernel);
    Fat12Spec.EverythingFits(boot, kernel);
    Head12(bs, Fat12Spec.Sectors(boot, kernel));
    Tail12(bs, Fat12Spec.Sectors(boot, kernel));
    SliceIs(img, 0, bs);
    var fs := Fat12Spec.Parts(bs, table, boot, kernel);
    ListedAt(img, fs, 4);
    ListedAt(img, fs, 5);
    ListedAt(img, fs, 6);
    DotsAt(img, 7 * 512, Fat12Spec.EfiEntries(3), 2048, 2, 0);
    DotsAt(img, 11 * 512, Fat12Spec.EfiBootEntries(|boot|), 2048, 3, 2);
    DotsAt(img, 15 * 512, Fat12Spec.BootEntries(Fat12Spec.KernelAt(boot), |kernel|), 2048, 4, 0);
  }

  /** The other entries of its directories. */
  lemma Entries12(img: seq<byte>, bs: seq<byte>, table: seq<byte>, boot: seq<byte>, kernel: seq<byte>)
    requires |boot| < 0x1_0000_0000 && |kernel| < 0x1_0000_0000 && Fat12Spec.Built(img, bs, table, boot, kernel)
    ensures EntryIs(img, 3 * 512, Text("EFI        "), 0x10, 2, 0)
    ensures EntryIs(img, 3 * 512 + 32, Text("BOOT       "), 0x10, 4, 0)
    ensures EntryIs(img, 7 * 512 + 64, Text("BOOT       "), 0x10, 3, 0)
    ensures EntryIs(img, 11 * 512 + 64, Text("BOOTX64 EFI"), 0x20, 5, |boot|)
    ensures EntryIs(img, 15 * 512 + 64, Text("MICRONT ELF"), 0x20, 5 + (|boot| + 2047) / 2048, |kernel|)
  {
    hide At, AllAt, EntryIs, Text, De, Dots, Directory, Name, Fat12Spec.TableOk, Fat12Spec.BootSectorOk, Blank,
      EfiName, BootName, BlankName, Bootx64Name, MicrontName, ElfName, DotName, DotDotName;
    Names();
    Fat12Spec.EverythingFits(boot, kernel);
    var fs := Fat12Spec.Parts(bs, table, boot, kernel);
    ListedAt(img, fs, 3);
    ListedAt(img, fs, 4);
    ListedAt(img, fs, 5);
    ListedAt(img, fs, 6);
    ThereAt(img, 3 * 512, Fat12Spec.RootEntries(2, 4), 2048, 0, EfiName(), BlankName(), 2, 0, ADIR);
    ThereAt(img, 3 * 512, Fat12Spec.RootEntries(2, 4), 2048, 1, BootName(), BlankName(), 4, 0, ADIR);
    ThereAt(img, 7 * 512, Fat12Spec.EfiEntries(3), 2048, 2, BootName(), BlankName(), 3, 0, ADIR);
    ThereAt(img, 11 * 512, Fat12Spec.EfiBootEntries(|boot|), 2048, 2, Bootx64Name(), EfiName(), 5, |boot|, AFILE);
    ThereAt(img, 15 * 512, Fat12Spec.BootEntries(Fat12Spec.KernelAt(boot), |kernel|), 2048, 2, MicrontName(), ElfName(),
            Fat12Spec.KernelAt(boot), |kernel|, AFILE);
  }
}
