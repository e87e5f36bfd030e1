/** The FAT12 image builder (tools/mkiso.py, build_fat12_esp): the packing of 12-bit entries. */
module Fat12Table {
  import opened Wrappers
  import opened ByteBuffers
  import opened FatReader

  const SECTOR: nat := 512
  const EOC: nat := 0xFFF

  /** The table is built as a dictionary from clusters to entries. */
  type Links = map<nat, nat>

  function Get(links: Links, i: nat): nat { if i in links then links[i] % 0x1000 else 0 }

  /** Entry `i` of a packed table: 12 bits of the two bytes at `3 * i / 2`. */
  function Decode(buf: seq<byte>, i: nat): (v: nat)
    requires 3 * i / 2 + 1 < |buf|
    ensures v < 0x1000
  {
    var a: int, b: int := buf[3 * i / 2], buf[3 * i / 2 + 1];
    if i % 2 == 0 then a + 0x100 * (b % 16) else a / 16 + 16 * b
  }

  /** Byte at `3 * i / 2` after entry `i` is stored over `old`. */
  function LowPart(i: nat, val: nat, was: byte): byte
    requires val < 0x1000
  {
    if i % 2 == 0 then val % 0x100 else was % 16 + 16 * (val % 16)
  }

  /** Byte at `3 * i / 2 + 1` after entry `i` is stored over `old`. */
  function HighPart(i: nat, val: nat, was: byte): byte
    requires val < 0x1000
  {
    if i % 2 == 0 then was / 16 * 16 + val / 0x100 else val / 16
  }

  lemma EvenParts(val: nat, was: int)
    requires val < 0x1000 && 0 <= was < 256
    ensures val % 0x100 + 0x100 * ((was / 16 * 16 + val / 0x100) % 16) == val
  {
    assert val / 0x100 < 16;
    assert (was / 16 * 16 + val / 0x100) % 16 == val / 0x100;
  }

  lemma OddParts(val: nat, was: int)
    requires val < 0x1000 && 0 <= was < 256
    ensures (was % 16 + 16 * (val % 16)) / 16 + 16 * (val / 16) == val
  {
    assert (was % 16 + 16 * (val % 16)) / 16 == val % 16;
  }

  lemma EvenKeeps(val: nat, was: int)
    requires val < 0x1000 && 0 <= was < 256
    ensures (was % 16 + 16 * (val % 16)) % 16 == was % 16
  {}

  lemma OddKeeps(val: nat, was: int)
    requires val < 0x1000 && 0 <= was < 256
    ensures (was / 16 * 16 + val / 0x100) / 16 == was / 16
  {
    assert val / 0x100 < 16;
  }

  lemma EvenEntry(buf: seq<byte>, k: nat)
    requires 3 * k + 1 < |buf|
    ensures 3 * (2 * k) / 2 == 3 * k && Decode(buf, 2 * k) == buf[3 * k] as int + 0x100 * (buf[3 * k + 1] as int % 16)
  {
    assert 3 * (2 * k) / 2 == 3 * k && 2 * k % 2 == 0;
  }

  lemma OddEntry(buf: seq<byte>, k: nat)
    requires 3 * k + 2 < |buf|
    ensures 3 * (2 * k + 1) / 2 == 3 * k + 1
    ensures Decode(buf, 2 * k + 1) == buf[3 * k + 1] as int / 16 + 16 * buf[3 * k + 2] as int
  {
    assert 3 * (2 * k + 1) / 2 == 3 * k + 1 && (2 * k + 1) % 2 == 1;
  }

  lemma SameBytes(buf: seq<byte>, now: seq<byte>, j: nat)
    requires |now| == |buf| && 3 * j / 2 + 1 < |buf|
    requires now[3 * j / 2] == buf[3 * j / 2] && now[3 * j / 2 + 1] == buf[3 * j / 2 + 1]
    ensures Decode(now, j) == Decode(buf, j)
  {}

  lemma EvenValues(k: nat, val: nat, lo: byte, hi: byte)
    requires val < 0x1000
    ensures LowPart(2 * k, val, lo) == val % 0x100 && HighPart(2 * k, val, hi) == hi / 16 * 16 + val / 0x100
  {
    assert 2 * k % 2 == 0;
  }

  lemma OddValues(k: nat, val: nat, lo: byte, hi: byte)
    requires val < 0x1000
    ensures LowPart(2 * k + 1, val, lo) == lo % 16 + 16 * (val % 16) && HighPart(2 * k + 1, val, hi) == val / 16
  {
    assert (2 * k + 1) % 2 == 1;
  }

  lemma StoreEven(buf: seq<byte>, now: seq<byte>, k: nat, val: nat)
    requires |now| == |buf| && 3 * k + 1 < |buf| && val < 0x1000
    requires now == buf[3 * k := LowPart(2 * k, val, buf[3 * k])][3 * k + 1 := HighPart(2 * k, val, buf[3 * k + 1])]
    ensures Decode(now, 2 * k) == val
    ensures forall j: nat | j != 2 * k && 3 * j / 2 + 1 < |buf| :: Decode(now, j) == Decode(buf, j)
  {
    hide Decode, LowPart, HighPart;
    EvenValues(k, val, buf[3 * k], buf[3 * k + 1]);
    EvenEntry(now, k);
    EvenParts(val, buf[3 * k + 1]);
    OddKeeps(val, buf[3 * k + 1]);
    if 3 * k + 2 < |buf| {
      OddEntry(buf, k);
      OddEntry(now, k);
    }
    forall j: nat | j != 2 * k && 3 * j / 2 + 1 < |buf| ensures Decode(now, j) == Decode(buf, j) {
      EntryBytes(j, k);
      if j != 2 * k + 1 { SameBytes(buf, now, j); }
    }
  }

  /** Two entries share bytes only if they are a pair. */
  lemma EntryBytes(j: nat, k: nat)
    ensures j < 2 * k ==> 3 * j / 2 + 1 < 3 * k
    ensures j > 2 * k + 1 ==> 3 * j / 2 > 3 * k + 2
    ensures 3 * (2 * k + 1) / 2 == 3 * k + 1
  {}

  lemma StoreOdd(buf: seq<byte>, now: seq<byte>, k: nat, val: nat)
    requires |now| == |buf| && 3 * k + 2 < |buf| && val < 0x1000
    requires now == buf[3 * k + 1 := LowPart(2 * k + 1, val, buf[3 * k + 1])]
                       [3 * k + 2 := HighPart(2 * k + 1, val, buf[3 * k + 2])]
    ensures Decode(now, 2 * k + 1) == val
    ensures forall j: nat | j != 2 * k + 1 && 3 * j / 2 + 1 < |buf| :: Decode(now, j) == Decode(buf, j)
  {
    hide Decode, LowPart, HighPart;
    OddValues(k, val, buf[3 * k + 1], buf[3 * k + 2]);
    OddEntry(now, k);
    OddParts(val, buf[3 * k + 1]);
    EvenKeeps(val, buf[3 * k + 1]);
    EvenEntry(buf, k);
    EvenEntry(now, k);
    forall j: nat | j != 2 * k && j != 2 * k + 1 && 3 * j / 2 + 1 < |buf| ensures Decode(now, j) == Decode(buf, j) {
      EntryBytes(j, k);
      SameBytes(buf, now, j);
    }
  }

  /** Storing entry `i` gives that entry, and keeps all others, though one of them shares a byte with it. */
  lemma StoreDecodes(buf: seq<byte>, now: seq<byte>, i: nat, val: nat)
    requires |now| == |buf| && 3 * i / 2 + 1 < |buf| && val < 0x1000
    requires now == buf[3 * i / 2 := LowPart(i, val, buf[3 * i / 2])]
                       [3 * i / 2 + 1 := HighPart(i, val, buf[3 * i / 2 + 1])]
    ensures Decode(now, i) == val
    ensures forall j: nat | j != i && 3 * j / 2 + 1 < |buf| :: Decode(now, j) == Decode(buf, j)
  {
    hide Decode, LowPart, HighPart;
    var k := i / 2;
    if i % 2 == 0 {
      assert i == 2 * k && 3 * i / 2 == 3 * k;
      StoreEven(buf, now, k, val);
    } else {
      assert i == 2 * k + 1 && 3 * i / 2 == 3 * k + 1;
      StoreOdd(buf, now, k, val);
    }
  }

  /** The entries that fit a table of 512 bytes. */
  const ENTRIES: nat := 341

  lemma FitsTable(i: nat)
    ensures 3 * i / 2 + 1 < SECTOR <==> i < ENTRIES
  {}

  lemma PartsAre(i: nat, val: nat, lo: byte, hi: byte)
    requires val < 0x1000
    ensures LowPart(i, val, lo) == if i % 2 == 0 then val % 0x100 else lo % 16 + val % 16 * 16
    ensures HighPart(i, val, hi) == if i % 2 == 0 then hi / 16 * 16 + val / 0x100 % 16 else val / 16 % 0x100
  {}

  /** Packs one entry. */
  method Pack(buf: array<byte>, i: nat, val: nat)
    requires 3 * i / 2 + 1 < buf.Length && val < 0x1000
    modifies buf
    ensures Decode(buf[..], i) == val
    ensures forall j: nat | j != i && 3 * j / 2 + 1 < buf.Length :: Decode(buf[..], j) == Decode(old(buf[..]), j)
  {
    var off := 3 * i / 2;
    PartsAre(i, val, buf[off], buf[off + 1]);
    hide LowPart, HighPart, Decode;
    ghost var was, lo, hi := buf[..], LowPart(i, val, buf[off]), HighPart(i, val, buf[off + 1]);
    if i % 2 == 0 {
      buf[off] := val % 0x100;
      buf[off + 1] := buf[off + 1] / 16 * 16 + val / 0x100 % 16;
    } else {
      buf[off] := buf[off] % 16 + val % 16 * 16;
      buf[off + 1] := val / 16 % 0x100;
    }
    assert buf[off] == lo && buf[off + 1] == hi;
    assert buf[..] == was[off := lo][off + 1 := hi];
    StoreDecodes(was, buf[..], i, val);
  }

  /** The in-place encoder: entries are packed in order until one does not fit; the rest stay free. */
  method Encode(links: Links, maxCl: nat) returns (buf: array<byte>)
    ensures fresh(buf) && buf.Length == SECTOR
    ensures forall i: nat | i < ENTRIES ::
      3 * i / 2 + 1 < SECTOR && Decode(buf[..], i) == if i <= maxCl then Get(links, i) else 0
  {
    hide Decode, Get;
    buf := new byte[SECTOR](_ => 0);
    var i := 0;
    AllFree(buf[..]);
    while i < maxCl + 1
      invariant 0 <= i <= maxCl + 1 && i <= ENTRIES
      invariant forall j: nat | j < ENTRIES ::
        3 * j / 2 + 1 < SECTOR && Decode(buf[..], j) == if j < i then Get(links, j) else 0
    {
      FitsTable(i);
      if 3 * i / 2 + 1 >= SECTOR { break; }
      GetIsSmall(links, i);
      Pack(buf, i, Get(links, i));
      i := i + 1;
    }
  }

  lemma AllFree(buf: seq<byte>)
    requires |buf| == SECTOR && forall k | 0 <= k < SECTOR :: buf[k] == 0
    ensures forall j: nat | j < ENTRIES :: 3 * j / 2 + 1 < SECTOR && Decode(buf, j) == 0
  {}

  lemma GetIsSmall(links: Links, i: nat)
    ensures Get(links, i) < 0x1000
  {}

  // ---- Chains -------------------------------------------------------------------------------

  /** alloc_chain: a chain of no clusters ends the chain before it once more. */
  function AllocChain(links: Links, first: nat, n: nat): (r: Links)
    requires first > 0
    decreases n
  {
    if n <= 1 then links[first + n - 1 := EOC] else AllocChain(links[first := first + 1], first + 1, n - 1)
  }

  lemma {:induction false} AllocChainLinks(links: Links, first: nat, n: nat)
    requires first > 0
    ensures var r := AllocChain(links, first, n);
      && (forall i: nat | first <= i < first + n - 1 :: i in r && r[i] == i + 1)
      && first + n - 1 in r && r[first + n - 1] == EOC
      && (forall i: nat | i < first && i != first + n - 1 :: (i in r <==> i in links) && (i in r ==> r[i] == links[i]))
      && (forall i: nat | i >= first + n :: (i in r <==> i in links) && (i in r ==> r[i] == links[i]))
    decreases n
  {
    if n > 1 { AllocChainLinks(links[first := first + 1], first + 1, n - 1); }
  }

  method AllocChainLoop(links: Links, first: nat, n: nat) returns (r: Links)
    requires first > 0
    ensures r == AllocChain(links, first, n)
  {
    r := links;
    var i := 0;
    while i < n - 1
      invariant 0 <= i && (n >= 1 ==> i <= n - 1) && (n == 0 ==> i == 0)
      invariant n >= 1 ==> AllocChain(r, first + i, n - i) == AllocChain(links, first, n)
      invariant n == 0 ==> r == links
    {
      r := r[first + i := first + i + 1];
      i := i + 1;
    }
    r := r[first + n - 1 := EOC];
  }
}
