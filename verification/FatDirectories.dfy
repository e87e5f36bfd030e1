/** Directories: entries, their names, and finding them. */
module FatDirectories {
  import opened Wrappers
  import opened ByteBuffers
  import opened FatReader

  const ADIR: byte := 0x10
  const AFILE: byte := 0x20

  /** A 32-byte directory entry. */
  function De(n8: seq<byte>, e3: seq<byte>, cl: nat, size: nat, attr: byte): (e: seq<byte>)
    requires size < 0x1_0000_0000
    ensures |e| == ENTRY
  {
    Ljust(n8, 8) + Ljust(e3, 3) + [attr] + Fill(0, 8) + Le16(cl / 0x1_0000 % 0x1_0000) + Fill(0, 4)
      + Le16(cl % 0x1_0000) + Le32(size)
  }

  function Name(n8: seq<byte>, e3: seq<byte>): (n: seq<byte>)
    ensures |n| == 11
  {
    Ljust(n8, 8) + Ljust(e3, 3)
  }

  /** Where the fields of an entry are. */
  lemma DeParts(n8: seq<byte>, e3: seq<byte>, cl: nat, size: nat, attr: byte)
    requires size < 0x1_0000_0000
    ensures var e := De(n8, e3, cl, size, attr);
      && At(e, 0, Name(n8, e3)) && e[11] == attr && At(e, 20, Le16(cl / 0x1_0000 % 0x1_0000))
      && At(e, 26, Le16(cl % 0x1_0000)) && At(e, 28, Le32(size))
  {
    hide Ljust, Le16, Le32, Fill;
  }

  /** What the reader finds in an entry. */
  lemma DeFields(dir: seq<byte>, off: nat, n8: seq<byte>, e3: seq<byte>, cl: nat, size: nat, attr: byte)
    requires size < 0x1_0000_0000 && cl < 0x1_0000_0000 && At(dir, off, De(n8, e3, cl, size, attr))
    ensures off + ENTRY <= |dir| && dir[off..off + 11] == Name(n8, e3) && dir[off + 11] == attr
    ensures dir[off] == Name(n8, e3)[0]
    ensures FirstCluster(dir, off) == cl && U32(dir, off + 28) == size
  {
    var e := De(n8, e3, cl, size, attr);
    hide De, Name, Le16, Le32, U16, U32;
    DeParts(n8, e3, cl, size, attr);
    AtByte(dir, off, e, 11);
    AtPart(dir, off, e, 0, Name(n8, e3));
    AtByte(dir, off, Name(n8, e3), 0);
    AtSlice(dir, off, Name(n8, e3));
    AtPart(dir, off, e, 20, Le16(cl / 0x1_0000 % 0x1_0000));
    AtPart(dir, off, e, 26, Le16(cl % 0x1_0000));
    AtPart(dir, off, e, 28, Le32(size));
    hide At;
    AtU16(dir, off + 20, cl / 0x1_0000 % 0x1_0000);
    AtU16(dir, off + 26, cl % 0x1_0000);
    AtU32(dir, off + 28, size);
  }

  /** Entries one after the other. */
  function Entries(es: seq<seq<byte>>): (s: seq<byte>)
    requires forall e | e in es :: |e| == ENTRY
    ensures |s| == ENTRY * |es|
    decreases |es|
  {
    if es == [] then [] else Entries(es[..|es| - 1]) + es[|es| - 1]
  }

  /** Entries, and zeros up to a size. */
  function Directory(es: seq<seq<byte>>, size: nat): (s: seq<byte>)
    requires (forall e | e in es :: |e| == ENTRY) && ENTRY * |es| <= size
    ensures |s| == size
  {
    Entries(es) + Fill(0, size - ENTRY * |es|)
  }

  lemma {:induction false} EntriesAt(es: seq<seq<byte>>, k: nat)
    requires (forall e | e in es :: |e| == ENTRY) && k < |es|
    ensures At(Entries(es), ENTRY * k, es[k])
    decreases |es|
  {
    var init := es[..|es| - 1];
    if k < |es| - 1 {
      EntriesAt(init, k);
      assert At(Entries(init) + es[|es| - 1], ENTRY * k, init[k]);
    }
  }

  lemma DirectoryAt(es: seq<seq<byte>>, size: nat, k: nat)
    requires (forall e | e in es :: |e| == ENTRY) && ENTRY * |es| <= size && k < |es|
    ensures At(Directory(es, size), ENTRY * k, es[k])
  {
    EntriesAt(es, k);
    assert At(Entries(es) + Fill(0, size - ENTRY * |es|), ENTRY * k, es[k]);
  }

  /** Entry `k` is the first with the name, and the directory does not end before it. */
  ghost predicate LeadsTo(es: seq<seq<byte>>, name: seq<byte>, k: nat)
    requires k < |es| && forall e | e in es :: |e| == ENTRY
  {
    && Matches(es[k], name)
    && (forall i | 0 <= i <= k :: es[i][0] != 0)
    && (forall i | 0 <= i < k :: !Matches(es[i], name))
  }

  /** The reader finds exactly that entry. */
  lemma {:induction false} FindsEntry(dir: seq<byte>, name: seq<byte>, j: nat, k: nat)
    requires j <= k && ENTRY * k + ENTRY <= |dir|
    ensures FindEntry(dir, name, ENTRY * j) == Some(ENTRY * k) <==>
      (&& Matches(dir[ENTRY * k..ENTRY * k + ENTRY], name)
       && (forall i | j <= i <= k :: dir[ENTRY * i] != 0)
       && (forall i | j <= i < k :: !Matches(dir[ENTRY * i..ENTRY * i + ENTRY], name)))
    decreases k - j
  {
    hide Matches;
    assert ENTRY * j + ENTRY == ENTRY * (j + 1);
    if j < k { FindsEntry(dir, name, j + 1, k); } else { FoundFrom(dir, name, k + 1); }
  }

  lemma {:induction false} FoundFrom(dir: seq<byte>, name: seq<byte>, j: nat)
    ensures FindEntry(dir, name, ENTRY * j).Some? ==> FindEntry(dir, name, ENTRY * j).value >= ENTRY * j
    decreases |dir| - ENTRY * j
  {
    hide Matches;
    assert ENTRY * j + ENTRY == ENTRY * (j + 1);
    if ENTRY * j + ENTRY <= |dir| { FoundFrom(dir, name, j + 1); }
  }

  /** Writing the next entry of a directory. */
  lemma AppendEntry(es: seq<seq<byte>>, size: nat, e: seq<byte>)
    requires (forall x | x in es :: |x| == ENTRY) && |e| == ENTRY && ENTRY * (|es| + 1) <= size
    ensures Patched(Directory(es, size), ENTRY * |es|, e) == Directory(es + [e], size)
  {
    var r := es + [e];
    assert r[..|r| - 1] == es;
    assert Entries(r) == Entries(es) + e;
    var was, now := Directory(es, size), Patched(Directory(es, size), ENTRY * |es|, e);
    assert forall i | 0 <= i < size :: now[i] == Directory(r, size)[i];
  }

  lemma EmptyDirectory(size: nat)
    ensures Directory([], size) == Fill(0, size)
  {
    assert Entries([]) == [];
    assert [] + Fill(0, size) == Fill(0, size);
  }

  function DotName(): seq<byte> { [0x2E] }
  function DotDotName(): seq<byte> { [0x2E, 0x2E] }
  function EfiName(): seq<byte> { [0x45, 0x46, 0x49] }
  function BootName(): seq<byte> { [0x42, 0x4F, 0x4F, 0x54] }
  function Bootx64Name(): seq<byte> { [0x42, 0x4F, 0x4F, 0x54, 0x58, 0x36, 0x34] }
  function MicrontName(): seq<byte> { [0x4D, 0x49, 0x43, 0x52, 0x4F, 0x4E, 0x54] }
  function ElfName(): seq<byte> { [0x45, 0x4C, 0x46] }
  function BlankName(): seq<byte> { [0x20, 0x20, 0x20] }

  function Dots(self: nat, parent: nat): (es: seq<seq<byte>>)
    ensures forall e | e in es :: |e| == ENTRY
    ensures |es| == 2
  {
    [De(DotName(), [0x20, 0x20], self, 0, ADIR), De(DotDotName(), [0x20], parent, 0, ADIR)]
  }

  lemma EntryHere(es: seq<seq<byte>>, size: nat, i: nat)
    requires (forall e | e in es :: |e| == ENTRY) && ENTRY * |es| <= size && i < |es|
    ensures Directory(es, size)[ENTRY * i..ENTRY * i + ENTRY] == es[i] && Directory(es, size)[ENTRY * i] == es[i][0]
  {
    DirectoryAt(es, size, i);
    hide Directory;
    AtByte(Directory(es, size), ENTRY * i, es[i], 0);
    AtSlice(Directory(es, size), ENTRY * i, es[i]);
  }

  lemma FoundIn(es: seq<seq<byte>>, size: nat, name: seq<byte>, k: nat)
    requires (forall e | e in es :: |e| == ENTRY) && ENTRY * |es| <= size && k < |es|
    ensures FindEntry(Directory(es, size), name, 0) == Some(ENTRY * k) <==> LeadsTo(es, name, k)
  {
    var dir := Directory(es, size);
    hide Directory, Matches, FindEntry;
    forall i | 0 <= i <= k ensures dir[ENTRY * i..ENTRY * i + ENTRY] == es[i] && dir[ENTRY * i] == es[i][0] {
      EntryHere(es, size, i);
    }
    FindsEntry(dir, name, 0, k);
  }

  /** The reader finds nothing if no entry has the name. */
  lemma {:induction false} NotFound(es: seq<seq<byte>>, size: nat, name: seq<byte>, j: nat)
    requires (forall e | e in es :: |e| == ENTRY) && ENTRY * |es| <= size && j <= |es|
    requires forall i | j <= i < |es| :: !Matches(es[i], name)
    ensures FindEntry(Directory(es, size), name, ENTRY * j) == None
    decreases |es| - j
  {
    hide Directory, Matches;
    if j == |es| {
      EndsThere(es, size);
    } else {
      EntryHere(es, size, j);
      assert ENTRY * j + ENTRY == ENTRY * (j + 1);
      NotFound(es, size, name, j + 1);
    }
  }

  lemma EndsThere(es: seq<seq<byte>>, size: nat)
    requires (forall e | e in es :: |e| == ENTRY) && ENTRY * |es| <= size
    ensures ENTRY * |es| < size ==> Directory(es, size)[ENTRY * |es|] == 0
  {}

  /** Which names find an entry that a builder writes. */
  lemma DeMatches(n8: seq<byte>, e3: seq<byte>, cl: nat, size: nat, attr: byte, name: seq<byte>)
    requires size < 0x1_0000_0000 && (attr == ADIR || attr == AFILE)
    ensures Matches(De(n8, e3, cl, size, attr), name) <==> Answers(Name(n8, e3), name)
    ensures De(n8, e3, cl, size, attr)[0] == Name(n8, e3)[0]
  {
    hide Ljust, Le16, Le32, Fill;
    assert De(n8, e3, cl, size, attr)[..11] == Name(n8, e3);
  }

  lemma NamesDiffer()
    ensures Name(DotName(), [0x20, 0x20])[0] == 0x2E && Name(DotDotName(), [0x20])[0] == 0x2E
    ensures Name(DotName(), [0x20, 0x20])[1] == 0x20 && Name(DotDotName(), [0x20])[1] == 0x2E
    ensures Name(EfiName(), BlankName())[0] == 0x45 && Name(BootName(), BlankName())[0] == 0x42
    ensures Name(Bootx64Name(), EfiName())[0] == 0x42 && Name(MicrontName(), ElfName())[0] == 0x4D
  {}

  /** Opening the directory that entry `k` names. */
  lemma OpensDirectory(v: Volume, es: seq<seq<byte>>, size: nat, k: nat, n8: seq<byte>, e3: seq<byte>, cl: nat)
    requires (forall e | e in es :: |e| == ENTRY) && ENTRY * |es| <= size && k < |es| && cl < 0x1_0000_0000
    requires es[k] == De(n8, e3, cl, 0, ADIR)
    ensures ENTRY * k + ENTRY <= |Directory(es, size)|
    ensures ReadDirectory(v, Directory(es, size), ENTRY * k) == Chain(v, cl)
  {
    DirectoryAt(es, size, k);
    hide Directory, De, Chain, FirstCluster, At;
    DeFields(Directory(es, size), ENTRY * k, n8, e3, cl, 0, ADIR);
  }

  /** A step of a path through a directory. */
  lemma PathStep(v: Volume, es: seq<seq<byte>>, size: nat, k: nat, n8: seq<byte>, e3: seq<byte>, cl: nat,
                 path: seq<seq<byte>>, sub: seq<byte>)
    requires (forall e | e in es :: |e| == ENTRY) && ENTRY * |es| <= size && k < |es| && cl < 0x1_0000_0000
    requires es[k] == De(n8, e3, cl, 0, ADIR) && Chain(v, cl) == Some(sub) && |path| > 1
    requires FindEntry(Directory(es, size), path[0], 0) == Some(ENTRY * k)
    ensures ReadPath(v, Directory(es, size), path) == ReadPath(v, sub, path[1..])
  {
    OpensDirectory(v, es, size, k, n8, e3, cl);
    hide Directory, De, Chain, FindEntry, ReadDirectory;
  }

  /** The first three entries of a directory that starts with the dots. */
  ghost predicate StartsWith(es: seq<seq<byte>>, self: nat, parent: nat, third: seq<byte>) {
    |es| >= 3 && es[0] == Dots(self, parent)[0] && es[1] == Dots(self, parent)[1] && es[2] == third
  }

  lemma ThirdFound(es: seq<seq<byte>>, dirSize: nat, self: nat, parent: nat, n8: seq<byte>, e3: seq<byte>, cl: nat,
                   size: nat, attr: byte)
    requires (forall e | e in es :: |e| == ENTRY) && ENTRY * |es| <= dirSize && size < 0x1_0000_0000
    requires StartsWith(es, self, parent, De(n8, e3, cl, size, attr))
    requires Name(n8, e3)[0] !in [0, 0x2E, KANJI, FREE] && (attr == ADIR || attr == AFILE)
    ensures FindEntry(Directory(es, dirSize), Name(n8, e3), 0) == Some(ENTRY * 2)
  {
    hide De, Name, Directory, FindEntry, Matches;
    NamesDiffer();
    DeMatches(n8, e3, cl, size, attr, Name(n8, e3));
    DeMatches(DotName(), [0x20, 0x20], self, 0, ADIR, Name(n8, e3));
    DeMatches(DotDotName(), [0x20], parent, 0, ADIR, Name(n8, e3));
    FoundIn(es, dirSize, Name(n8, e3), 2);
  }

  lemma LastStep(v: Volume, dir: seq<byte>, name: seq<byte>, off: nat)
    requires FindEntry(dir, name, 0) == Some(off)
    ensures off + ENTRY <= |dir| && ReadPath(v, dir, [name]) == ReadFile(v, dir, off)
  {
    hide ReadFile;
  }

  /** Adds an entry to a directory buffer. */
  method AddEntry(d: array<byte>, slot: nat, e: seq<byte>, ghost es: seq<seq<byte>>)
    requires (forall x | x in es :: |x| == ENTRY) && |e| == ENTRY && slot == ENTRY * |es|
    requires ENTRY * (|es| + 1) <= d.Length && d[..] == Directory(es, d.Length)
    modifies d
    ensures d[..] == Directory(es + [e], d.Length)
  {
    AppendEntry(es, d.Length, e);
    Blit(d, slot, e);
  }

  /** A directory buffer with the entries of itself and of its parent. */
  method NewDirectory(size: nat, self: nat, parent: nat) returns (d: array<byte>)
    requires size >= 2 * ENTRY
    ensures fresh(d) && d.Length == size && d[..] == Directory(Dots(self, parent), size)
  {
    hide De, Directory;
    EmptyDirectory(size);
    d := new byte[size](_ => 0);
    assert d[..] == Fill(0, size);
    var dot, dotdot := De(DotName(), [0x20, 0x20], self, 0, ADIR), De(DotDotName(), [0x20], parent, 0, ADIR);
    AddEntry(d, 0, dot, []);
    assert [] + [dot] == [dot];
    AddEntry(d, 32, dotdot, [dot]);
    assert [dot] + [dotdot] == Dots(self, parent);
  }
}
