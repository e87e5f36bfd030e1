/** A reader of FAT volumes, written from the FAT specification (fatgen103, sections "FAT Data
    Structure" and "FAT Directory Structure") and independent of the builders. */
module FatReader {
  import opened Wrappers
  import opened ByteBuffers

  const ENTRY: nat := 32
  const ATTR_VOLUME_ID: nat := 0x08
  const ATTR_DIRECTORY: nat := 0x10
  const FREE: byte := 0xE5
  const KANJI: byte := 0x05

  /** The decoded file allocation table, the data area (cluster 2 first) and the root directory. */
  datatype Volume = Volume(fat: seq<nat>, area: seq<byte>, clusterSize: nat, eoc: nat, root: seq<byte>)

  function Times(a: nat, b: nat): nat { a * b }

  /** Where a cluster begins in the data area. */
  function Offset(cl: nat, size: nat): nat
    requires cl >= 2
  {
    (cl - 2) * size
  }

  lemma OffsetAdd(cl: nat, n: nat, size: nat)
    requires cl >= 2
    ensures Offset(cl + n, size) == Offset(cl, size) + n * size
  {
    assert (cl - 2 + n) * size == (cl - 2) * size + n * size;
  }

  lemma OffsetStep(cl: nat, size: nat)
    requires cl >= 2
    ensures Offset(cl + 1, size) == Offset(cl, size) + size
  {
    OffsetAdd(cl, 1, size);
  }

  /** The bytes of the clusters of a chain; a chain that is longer than the table does not end. */
  function ReadChain(v: Volume, cl: nat, fuel: nat): Option<seq<byte>>
    decreases fuel
  {
    if fuel == 0 || cl < 2 || cl >= |v.fat| || Offset(cl, v.clusterSize) + v.clusterSize > |v.area| then None else
    var here := v.area[Offset(cl, v.clusterSize)..Offset(cl, v.clusterSize) + v.clusterSize];
    if v.fat[cl] >= v.eoc then Some(here) else
    match ReadChain(v, v.fat[cl], fuel - 1)
    case None => None
    case Some(rest) => Some(here + rest)
  }

  function Chain(v: Volume, cl: nat): Option<seq<byte>> { ReadChain(v, cl, |v.fat|) }

  /** The name that an entry's 11 bytes stand for: a first byte of 0x05 stands for 0xE5. */
  function Shown(stored: seq<byte>): seq<byte>
    requires |stored| == 11
  {
    if stored[0] == KANJI then [FREE] + stored[1..] else stored
  }

  /** The 11 bytes belong to an entry in use, and to this name: a first byte of 0xE5 marks a free entry. */
  predicate Answers(stored: seq<byte>, name: seq<byte>)
    requires |stored| == 11
  {
    stored[0] != FREE && Shown(stored) == name
  }

  /** The entry is in use, is neither a volume label nor part of a long name, and has the name. */
  predicate Matches(e: seq<byte>, name: seq<byte>)
    requires |e| == ENTRY
  {
    e[11] / ATTR_VOLUME_ID % 2 == 0 && Answers(e[..11], name)
  }

  /** The offset of the first entry with an 11-byte name; a zero byte ends the directory. */
  function FindEntry(dir: seq<byte>, name: seq<byte>, off: nat): (r: Option<nat>)
    ensures r.Some? ==> r.value + ENTRY <= |dir|
    decreases |dir| - off
  {
    if off + ENTRY > |dir| || dir[off] == 0 then None else
    if Matches(dir[off..off + ENTRY], name) then Some(off) else FindEntry(dir, name, off + ENTRY)
  }

  function FirstCluster(dir: seq<byte>, off: nat): nat
    requires off + ENTRY <= |dir|
  {
    U16(dir, off + 20) * 0x1_0000 + U16(dir, off + 26)
  }

  /** The contents a directory entry stands for: the chain, cut to the recorded size. */
  function ReadFile(v: Volume, dir: seq<byte>, off: nat): Option<seq<byte>>
    requires off + ENTRY <= |dir|
  {
    var size := U32(dir, off + 28);
    if dir[off + 11] / ATTR_DIRECTORY % 2 == 1 then None else
    if size == 0 then Some([]) else
    match Chain(v, FirstCluster(dir, off))
    case None => None
    case Some(bytes) => if size <= |bytes| then Some(bytes[..size]) else None
  }

  function ReadDirectory(v: Volume, dir: seq<byte>, off: nat): Option<seq<byte>>
    requires off + ENTRY <= |dir|
  {
    if dir[off + 11] / ATTR_DIRECTORY % 2 == 0 then None else Chain(v, FirstCluster(dir, off))
  }

  /** The contents of the file at a path of 11-byte names below a directory. */
  function ReadPath(v: Volume, dir: seq<byte>, path: seq<seq<byte>>): Option<seq<byte>>
    decreases |path|
  {
    if path == [] then None else
    match FindEntry(dir, path[0], 0)
    case None => None
    case Some(off) =>
      if |path| == 1 then ReadFile(v, dir, off) else
      match ReadDirectory(v, dir, off)
      case None => None
      case Some(sub) => ReadPath(v, sub, path[1..])
  }

  // ---- Chains of consecutive clusters ------------------------------------------------------

  /** Clusters `first` to `first + n - 1` are linked in order, and the last one ends the chain. */
  ghost predicate Linked(fat: seq<nat>, eoc: nat, first: nat, n: nat) {
    && n >= 1 && first >= 2 && first + n <= |fat|
    && (forall i | first <= i < first + n - 1 :: fat[i] == i + 1)
    && fat[first + n - 1] >= eoc && first + n <= eoc
  }

  lemma SliceJoin(s: seq<byte>, a: nat, b: nat, c: nat)
    requires a <= b <= c <= |s|
    ensures s[a..b] + s[b..c] == s[a..c]
  {}

  /** Reading such a chain reads a contiguous part of the data area. */
  lemma {:induction false} LinkedReads(v: Volume, first: nat, n: nat, fuel: nat)
    requires Linked(v.fat, v.eoc, first, n) && n <= fuel && Offset(first + n, v.clusterSize) <= |v.area|
    ensures Offset(first, v.clusterSize) <= Offset(first + n, v.clusterSize)
    ensures ReadChain(v, first, fuel) == Some(v.area[Offset(first, v.clusterSize)..Offset(first + n, v.clusterSize)])
    decreases n
  {
    hide Offset;
    var size := v.clusterSize;
    OffsetStep(first, size);
    if n > 1 {
      assert Linked(v.fat, v.eoc, first + 1, n - 1);
      LinkedReads(v, first + 1, n - 1, fuel - 1);
      SliceJoin(v.area, Offset(first, size), Offset(first + 1, size), Offset(first + n, size));
    }
  }

  /** Reading a chain that runs past the end of the table fails. */
  lemma {:induction false} UnlinkedStops(v: Volume, first: nat, fuel: nat)
    requires |v.fat| < v.eoc
    requires forall i | first <= i < |v.fat| :: v.fat[i] == i + 1
    ensures ReadChain(v, first, fuel) == None
    decreases fuel
  {
    hide Offset;
    if fuel > 0 && 2 <= first < |v.fat| { UnlinkedStops(v, first + 1, fuel - 1); }
  }

  /** The contents of a file whose bytes begin at the start of its first cluster. */
  lemma LinkedFile(v: Volume, dir: seq<byte>, off: nat, first: nat, n: nat, data: seq<byte>)
    requires off + ENTRY <= |dir| && FirstCluster(dir, off) == first && U32(dir, off + 28) == |data|
    requires dir[off + 11] / ATTR_DIRECTORY % 2 == 0
    requires |data| > 0 ==> Linked(v.fat, v.eoc, first, n) && Offset(first + n, v.clusterSize) <= |v.area|
    requires |data| > 0 ==> |data| <= n * v.clusterSize && At(v.area, Offset(first, v.clusterSize), data)
    ensures ReadFile(v, dir, off) == Some(data)
  {
    hide FirstCluster, U32, ReadChain, Offset;
    if |data| > 0 {
      LinkedReads(v, first, n, |v.fat|);
      OffsetAdd(first, n, v.clusterSize);
      AtSlice(v.area, Offset(first, v.clusterSize), data);
      assert v.area[Offset(first, v.clusterSize)..Offset(first + n, v.clusterSize)][..|data|] == data;
    } else {
      assert data == [];
    }
  }
}
