/** The sectors, directories and contents. */
module Fat32Builder {
  import opened Wrappers
  import opened ByteBuffers
  import opened FatReader
  import opened FatDirectories
  import opened Fat32Spec
  import opened Fat32Tables

  // ---- Sectors and directories ------------------------------------------------------------------

  lemma BootFieldsInOrder(ps: nat, hidden: nat, fatSec: nat)
    requires ps < 0x1_0000_0000 && hidden < 0x1_0000_0000 && fatSec < 0x1_0000_0000
    ensures var all := BootFields(ps, hidden, fatSec);
      |all| == 10 && forall i, j | 0 <= i < j < 10 :: all[i].off + |all[i].data| <= all[j].off
  {
    hide Le16, Le32, Geometry, Sizes;
  }

  /** The boot sector. */
  method BuildBootSector(ps: nat, hidden: nat, fatSec: nat) returns (bs: array<byte>)
    requires ps < 0x1_0000_0000 && hidden < 0x1_0000_0000 && fatSec < 0x1_0000_0000
    ensures fresh(bs) && bs.Length == S
    ensures BootSectorOk(bs[..], ps, fatSec) && Filled(bs[..], BootFields(ps, hidden, fatSec))
  {
    hide Begun, Filled, Le16, Le32, Geometry, Sizes, BootSectorOk;
    ghost var all := BootFields(ps, hidden, fatSec);
    BootFieldsInOrder(ps, hidden, fatSec);
    bs := new byte[S](_ => 0);
    NoneYet(bs[..], all);
    PutGeometry(bs, all);
    PutNext(bs, 21, [0xF8], all, 2);
    PutSizes(bs, ps, hidden, fatSec, all);
    PutNext(bs, 44, Le32(2), all, 4);
    PutNext(bs, 48, Le16(1) + Le16(6), all, 5);
    PutNext(bs, 64, [0x80], all, 6);
    PutNext(bs, 66, [0x29] + Le32(0x4E54_4D52), all, 7);
    PutNext(bs, 71, [0x4D, 0x49, 0x43, 0x52, 0x4F, 0x4E, 0x54, 0x2D, 0x45, 0x46, 0x49,
                     0x46, 0x41, 0x54, 0x33, 0x32, 0x20, 0x20, 0x20], all, 8);
    PutNext(bs, 510, [0x55, 0xAA], all, 9);
    AllBegun(bs[..], all);
    BootFieldsOk(bs[..], ps, hidden, fatSec);
  }

  /** The first fields of the boot sector: jump, name and geometry. */
  method PutGeometry(bs: array<byte>, ghost all: seq<Field>)
    requires bs.Length == S && |all| == 10 && Begun(bs[..], all, 0)
    requires all[0] == Field(0, [0xEB, 0x58, 0x90, 0x4D, 0x53, 0x57, 0x49, 0x4E, 0x34, 0x2E, 0x31])
    requires all[1] == Field(11, Geometry(RES))
    modifies bs
    ensures Begun(bs[..], all, 2)
  {
    hide Begun, Le16;
    PutNext(bs, 0, [0xEB, 0x58, 0x90, 0x4D, 0x53, 0x57, 0x49, 0x4E, 0x34, 0x2E, 0x31], all, 0);
    PutNext(bs, 11, Le16(512) + [1] + Le16(32) + [2], all, 1);
  }

  method PutSizes(bs: array<byte>, ps: nat, hidden: nat, fatSec: nat, ghost all: seq<Field>)
    requires ps < 0x1_0000_0000 && hidden < 0x1_0000_0000 && fatSec < 0x1_0000_0000
    requires bs.Length == S && |all| == 10 && Begun(bs[..], all, 3) && all[3] == Field(24, Sizes(ps, hidden, fatSec))
    modifies bs
    ensures Begun(bs[..], all, 4)
  {
    hide Begun, Le16, Le32;
    PutNext(bs, 24, Le16(63) + Le16(255) + Le32(hidden) + Le32(ps) + Le32(fatSec), all, 3);
  }

  /** The FSInfo sector. */
  method BuildFsInfo() returns (fsi: array<byte>)
    ensures fresh(fsi) && fsi.Length == S && Filled(fsi[..], InfoFields(0xFFFF_FFFF))
  {
    hide Begun, Filled, Le32;
    ghost var all := InfoFields(0xFFFF_FFFF);
    fsi := new byte[S](_ => 0);
    NoneYet(fsi[..], all);
    PutNext(fsi, 0, Le32(0x4161_5252), all, 0);
    PutNext(fsi, 484, Le32(0x6141_7272) + Le32(0xFFFF_FFFF) + Le32(0xFFFF_FFFF), all, 1);
    PutNext(fsi, 508, Le32(0xAA55_0000), all, 2);
    AllBegun(fsi[..], all);
  }

  method BuildRootDirectory() returns (d: array<byte>)
    ensures fresh(d) && d[..] == RootDirectory(CL_EFI, CL_BOOT)
  {
    hide De, Directory, Dots;
    d := NewDirectory(S, CL_ROOT, 0);
    var dots, efi, boot := Dots(CL_ROOT, 0), De(EfiName(), BlankName(), CL_EFI, 0, ADIR),
      De(BootName(), BlankName(), CL_BOOT, 0, ADIR);
    AddEntry(d, 64, efi, dots);
    AddEntry(d, 96, boot, dots + [efi]);
    assert dots + [efi] + [boot] == RootEntries(CL_EFI, CL_BOOT);
  }

  method BuildEfiDirectory() returns (d: array<byte>)
    ensures fresh(d) && d[..] == EfiDirectory(CL_EB)
  {
    hide De, Directory, Dots;
    d := NewDirectory(S, CL_EFI, CL_ROOT);
    AddEntry(d, 64, De(BootName(), BlankName(), CL_EB, 0, ADIR), Dots(CL_EFI, CL_ROOT));
  }

  method BuildEfiBootDirectory(size: nat) returns (d: array<byte>)
    requires size < 0x1_0000_0000
    ensures fresh(d) && d[..] == EfiBootDirectory(size)
  {
    hide De, Directory, Dots;
    d := NewDirectory(S, CL_EB, CL_EFI);
    AddEntry(d, 64, De(Bootx64Name(), EfiName(), CL_BX, size, AFILE), Dots(CL_EB, CL_EFI));
  }

  /** /boot/: extra files are listed until the directory is full. */
  method BuildBootDirectory(files: seq<seq<byte>>, extras: seq<Extra>) returns (d: array<byte>)
    requires |files| == 2 + |extras| && Small(files)
    ensures fresh(d) && d[..] == BootDirectory(files, extras)
  {
    hide De, Directory, Dots, First, ExtraEntry;
    d := NewDirectory(S, CL_BOOT, CL_ROOT);
    AddEntry(d, 64, De(MicrontName(), ElfName(), First(files, 1), |files[1]|, AFILE), Dots(CL_BOOT, CL_ROOT));
    var slot, k := 96, 0;
    while k < |extras|
      invariant 0 <= k <= |extras| && k < MAX_EXTRA && slot == ENTRY * (3 + k)
      invariant d.Length == S && d[..] == Directory(BootEntries(files, extras, k), S)
    {
      AddEntry(d, slot, ExtraEntry(files, extras, k), BootEntries(files, extras, k));
      slot := slot + 32;
      k := k + 1;
      if slot + 32 > S {
        assert k == Listed(extras);
        return;
      }
    }
    assert k == Listed(extras);
  }

  // ---- The image --------------------------------------------------------------------------------

  /** Boot sector and backup, FSInfo, and the two tables. */
  method PutReserved(img: array<byte>, fatSec: nat, bs: seq<byte>, fsi: seq<byte>, fat: seq<byte>)
      returns (ghost fs: seq<Field>)
    requires |bs| == S && |fsi| == S && |fat| == fatSec * S && DataStart(fatSec) * S <= img.Length
    requires forall i | 0 <= i < img.Length :: img[i] == 0
    modifies img
    ensures fs == ReservedParts(fatSec, bs, fsi, fat)
    ensures Filled(img[..], fs) && Below(fs, DataStart(fatSec) * S)
  {
    hide At, Blank;
    assert Blank(img[..], []) by { NoFields(img[..]); }
    Append(img, 0, bs, []);
    fs := [Field(0, bs)];
    assert [] + fs == fs;
    Append(img, 6 * S, bs, fs);
    fs := fs + [Field(6 * S, bs)];
    Place(img, S, fsi, fs);
    fs := fs + [Field(S, fsi)];
    Append(img, RES * S, fat, fs);
    fs := fs + [Field(RES * S, fat)];
    Append(img, RES * S + fatSec * S, fat, fs);
    fs := fs + [Field(RES * S + fatSec * S, fat)];
  }

  /** The four directories, in clusters 2 to 5. */
  method PutDirectories(img: array<byte>, fatSec: nat, files: seq<seq<byte>>, extras: seq<Extra>, ghost fs: seq<Field>)
      returns (ghost gs: seq<Field>)
    requires |files| == 2 + |extras| && Small(files) && Clo(fatSec, 6) <= img.Length
    requires Filled(img[..], fs) && Below(fs, Clo(fatSec, 2))
    modifies img
    ensures gs == DirectoryParts(fatSec, files, extras)
    ensures Filled(img[..], fs + gs) && Below(fs + gs, Clo(fatSec, 6))
  {
    hide At, Blank, RootDirectory, EfiDirectory, EfiBootDirectory, BootDirectory;
    var root := BuildRootDirectory();
    Append(img, Clo(fatSec, CL_ROOT), root[..], fs);
    gs := [Field(Clo(fatSec, CL_ROOT), RootDirectory(CL_EFI, CL_BOOT))];
    var efi := BuildEfiDirectory();
    Append(img, Clo(fatSec, CL_EFI), efi[..], fs + gs);
    gs := gs + [Field(Clo(fatSec, CL_EFI), EfiDirectory(CL_EB))];
    assert fs + gs == fs + gs[..1] + [gs[1]];
    var eb := BuildEfiBootDirectory(|files[0]|);
    Append(img, Clo(fatSec, CL_EB), eb[..], fs + gs);
    gs := gs + [Field(Clo(fatSec, CL_EB), EfiBootDirectory(|files[0]|))];
    assert fs + gs == fs + gs[..2] + [gs[2]];
    var boot := BuildBootDirectory(files, extras);
    Append(img, Clo(fatSec, CL_BOOT), boot[..], fs + gs);
    gs := gs + [Field(Clo(fatSec, CL_BOOT), BootDirectory(files, extras))];
    assert fs + gs == fs + gs[..3] + [gs[3]];
  }

  lemma {:induction false} FileFieldIn(fatSec: nat, files: seq<seq<byte>>, k: nat, j: nat)
    requires j < k <= |files| && files[j] != []
    ensures Field(Clo(fatSec, First(files, j)), files[j]) in FileFields(fatSec, files, k)
    decreases k
  {
    if j < k - 1 { FileFieldIn(fatSec, files, k - 1, j); }
  }

  /** The contents of file `k`, at its first cluster; `ok` says that they end inside the image. */
  method PutFile(img: array<byte>, ps: nat, fatSec: nat, files: seq<seq<byte>>, k: nat, ghost fs: seq<Field>)
      returns (ok: bool)
    requires k < |files| && img.Length == ps * S
    requires Filled(img[..], fs + FileFields(fatSec, files, k))
    requires Below(fs + FileFields(fatSec, files, k), Clo(fatSec, First(files, k)))
    modifies img
    ensures ok <==> FileFits(ps, fatSec, files, k)
    ensures ok ==> Filled(img[..], fs + FileFields(fatSec, files, k + 1))
    ensures ok ==> Below(fs + FileFields(fatSec, files, k + 1), Clo(fatSec, First(files, k + 1)))
  {
    FileEnd(fatSec, First(files, k), files[k]);
    FirstStep(files, k);
    hide At, Blank, First, Clo, Ncl;
    ghost var gs := fs + FileFields(fatSec, files, k);
    assert gs + FileField(fatSec, files, k) == fs + FileFields(fatSec, files, k + 1);
    if files[k] == [] {
      assert gs + [] == gs;
      return true;
    }
    if Clo(fatSec, First(files, k)) + |files[k]| > img.Length { return false; }
    Append(img, Clo(fatSec, First(files, k)), files[k], gs);
    return true;
  }

  lemma FileEnd(fatSec: nat, cl: nat, data: seq<byte>)
    requires cl >= 2
    ensures Clo(fatSec, cl) + |data| <= Clo(fatSec, cl + Ncl(|data|))
  {}

  /** The contents of all files; a file past the end of the image makes the partition longer, which
      the caller of build_fat32_part refuses. */
  method PutFiles(img: array<byte>, ps: nat, fatSec: nat, files: seq<seq<byte>>, ghost fs: seq<Field>)
      returns (ok: bool)
    requires |files| >= 2 && img.Length == ps * S
    requires Filled(img[..], fs) && Below(fs, Clo(fatSec, 6))
    modifies img
    ensures ok <==> forall k | 0 <= k < |files| :: FileFits(ps, fatSec, files, k)
    ensures ok ==> Filled(img[..], fs + FileFields(fatSec, files, |files|))
  {
    hide Filled, Below, Clo, FileFits;
    assert fs + FileFields(fatSec, files, 0) == fs && First(files, 0) == 6;
    ok := PutFile(img, ps, fatSec, files, 0, fs);
    if !ok { return; }
    ok := PutFile(img, ps, fatSec, files, 1, fs);
    if !ok { return; }
    var k := 2;
    while k < |files|
      invariant 2 <= k <= |files|
      invariant forall j | 0 <= j < k :: FileFits(ps, fatSec, files, j)
      invariant Filled(img[..], fs + FileFields(fatSec, files, k))
      invariant Below(fs + FileFields(fatSec, files, k), Clo(fatSec, First(files, k)))
    {
      ok := PutFile(img, ps, fatSec, files, k, fs);
      if !ok { return; }
      k := k + 1;
    }
    ok := true;
  }

  lemma FieldsAt(s: seq<byte>, fs: seq<Field>, gs: seq<Field>)
    requires AllAt(s, fs + gs)
    ensures AllAt(s, fs) && AllAt(s, gs)
  {
    hide At;
    assert forall i | 0 <= i < |fs| :: (fs + gs)[i] == fs[i];
    assert forall i | 0 <= i < |gs| :: (fs + gs)[|fs| + i] == gs[i];
  }

  lemma FilesAt(s: seq<byte>, fatSec: nat, files: seq<seq<byte>>)
    requires AllAt(s, FileFields(fatSec, files, |files|))
    ensures FilesPlaced(s, fatSec, files, |files|)
  {
    hide At;
    forall k | 0 <= k < |files| && files[k] != [] ensures At(s, Clo(fatSec, First(files, k)), files[k]) {
      FileFieldIn(fatSec, files, |files|, k);
    }
  }

  /** Everything; `ok` says that all of it ends inside the image. */
  method PutAll(img: array<byte>, files: seq<seq<byte>>, extras: seq<Extra>, ps: nat, hidden: nat, fatSec: nat)
      returns (ok: bool, ghost bs: seq<byte>, ghost fsi: seq<byte>, ghost fat: seq<byte>)
    requires |files| == 2 + |extras| && Small(files) && img.Length == ps * S
    requires forall i | 0 <= i < img.Length :: img[i] == 0
    requires fatSec >= 1 && DataStart(fatSec) + 4 <= ps
    requires ps < 0x1_0000_0000 && hidden < 0x1_0000_0000 && fatSec < 0x1_0000_0000
    modifies img
    ensures ok <==> Fits(ps, fatSec, files)
    ensures ok ==> Built(img[..], ps, fatSec, bs, fat, files, extras)
    ensures ok ==> Complete(img[..], ps, hidden, fatSec, bs, fsi, fat, files, extras)
  {
    hide At, BootSectorOk, TableOk, RootDirectory, EfiDirectory, EfiBootDirectory, BootDirectory, FilesPlaced, Filled,
      Below, Clo, First, FileFields, Built, DataStart, FileFits, RestFree, ReservedParts, DirectoryParts, BootFields,
      InfoFields;
    PartitionRoom(ps, fatSec);
    var boot := BuildBootSector(ps, hidden, fatSec);
    var info := BuildFsInfo();
    var table := BuildTable(fatSec, files);
    bs, fsi, fat := boot[..], info[..], table[..];
    ghost var fs := PutReserved(img, fatSec, boot[..], info[..], table[..]);
    ghost var gs := PutDirectories(img, fatSec, files, extras, fs);
    ok := PutFiles(img, ps, fatSec, files, fs + gs);
    if ok { AllPlaced(img[..], ps, fatSec, bs, fsi, fat, files, extras); }
  }

  lemma PartitionRoom(ps: nat, fatSec: nat)
    requires DataStart(fatSec) + 4 <= ps
    ensures DataStart(fatSec) * S == Clo(fatSec, 2) <= Clo(fatSec, 6) <= ps * S
  {}

  /** All fields at their places make a built partition. */
  lemma AllPlaced(img: seq<byte>, ps: nat, fatSec: nat, bs: seq<byte>, fsi: seq<byte>, fat: seq<byte>,
                  files: seq<seq<byte>>, extras: seq<Extra>)
    requires |files| == 2 + |extras| && Small(files) && |img| == ps * S
    requires BootSectorOk(bs, ps, fatSec) && |fat| == fatSec * S && TableOk(fat, files, |files|)
    requires Filled(img, Parts(fatSec, bs, fsi, fat, files, extras))
    ensures Built(img, ps, fatSec, bs, fat, files, extras)
  {
    hide At, BootSectorOk, TableOk, RootDirectory, EfiDirectory, EfiBootDirectory, BootDirectory, FilesPlaced, AllAt,
      Blank, Clo, First, FileFields;
    var fs, gs := ReservedParts(fatSec, bs, fsi, fat), DirectoryParts(fatSec, files, extras);
    FieldsAt(img, fs + gs, FileFields(fatSec, files, |files|));
    FieldsAt(img, fs, gs);
    FilesAt(img, fatSec, files);
    EachAt(img, fs);
    EachAt(img, gs);
  }

  lemma EachAt(s: seq<byte>, fs: seq<Field>)
    requires AllAt(s, fs) && 4 <= |fs| <= 5
    ensures At(s, fs[0].off, fs[0].data) && At(s, fs[1].off, fs[1].data) && At(s, fs[2].off, fs[2].data)
    ensures At(s, fs[3].off, fs[3].data) && At(s, fs[|fs| - 1].off, fs[|fs| - 1].data)
  {
    hide At;
  }

  /** build_fat32_part and the check of its result: a partition with too few clusters for FAT32 is
      refused, and one that the contents made longer; any other holds everything at its place, and zeros
      elsewhere. */
  method Build(bootx64: seq<byte>, kernel: seq<byte>, extras: seq<Extra>, ps: nat, hidden: nat)
      returns (image: Option<array<byte>>, ghost bs: seq<byte>, ghost fsi: seq<byte>, ghost fat: seq<byte>)
    requires ps < 0x1_0000_0000 && hidden < 0x1_0000_0000 && Small(Contents(bootx64, kernel, extras))
    ensures image.Some? <==>
      && Clusters(ps, Estimate(ps, 8)) >= 65525
      && Fits(ps, Estimate(ps, 8), Contents(bootx64, kernel, extras))
    ensures image.Some? ==>
      && Built(image.value[..], ps, Estimate(ps, 8), bs, fat, Contents(bootx64, kernel, extras), extras)
      && Estimate(ps, 8) < 0x1_0000_0000
      && Complete(image.value[..], ps, hidden, Estimate(ps, 8), bs, fsi, fat, Contents(bootx64, kernel, extras), extras)
  {
    hide Built, Complete, Fits, Estimate;
    EstimateIsSmall(ps, 8);
    var fatSec := FatSectors(ps);
    bs, fsi, fat := [], [], [];
    if Clusters(ps, fatSec) < 65525 { return None, bs, fsi, fat; }
    var img := new byte[ps * S](_ => 0);
    var ok;
    ok, bs, fsi, fat := PutAll(img, Contents(bootx64, kernel, extras), extras, ps, hidden, fatSec);
    if ok { image := Some(img); } else { image := None; }
  }
}
