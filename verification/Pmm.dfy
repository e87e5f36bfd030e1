/** The page allocator of kernel/mm/physical_memory.cpp, working in place on its bitmap. */
module Pmm {
  import opened PmmSpec

  ghost predicate BitOf(b: bv8, k: nat) requires k < 8 { (b >> k) & 1 == 1 }

  lemma SetBit(b: bv8, k: nat, j: nat)
    requires k < 8 && j < 8
    ensures BitOf(b | (1 << k), j) == (j == k || BitOf(b, j))
  {}

  lemma ClearBit(b: bv8, k: nat, j: nat)
    requires k < 8 && j < 8
    ensures BitOf(b & !(1 << k), j) == (j != k && BitOf(b, j))
  {}

  lemma AllOnes(j: nat)
    requires j < 8
    ensures BitOf(0xFF, j)
  {}

  /** One entry of the boot memory map. */
  datatype Region = Region(base: nat, length: nat, available: bool)

  const TWO64: nat := 0x1_0000_0000_0000_0000

  function AlignUp(a: nat): nat { (a + 4095) % TWO64 / 4096 * 4096 }
  function AlignDown(a: nat): nat { a / 4096 * 4096 }

  /** Number of pages the bitmap's own bytes touch. */
  function BitmapSpan(bmStart: nat): nat {
    (bmStart + BITMAP_BYTES + 4095) / 4096 - bmStart / 4096
  }

  /** The pages a map entry makes available: wholly inside it and below the bitmap's reach. */
  ghost function RegionPages(e: Region): set<nat> {
    set p: nat | p < MAX_PAGES && e.available
                 && AlignUp(e.base) <= p * 4096 < AlignDown((e.base + e.length) % TWO64)
  }

  /** They are the pages below 8 GB that lie inside the entry, with both ends in 64-bit arithmetic: an
      entry that starts in the last page counts from address 0. */
  lemma RegionMeans(e: Region, p: nat)
    requires e.base < TWO64
    ensures var start, end := if e.base + 4095 < TWO64 then e.base else 0, (e.base + e.length) % TWO64;
      p in RegionPages(e) <==> p < 0x20_0000 && e.available && start <= p * 4096 && p * 4096 + 4096 <= end
  {
    var up, end := (e.base + 4095) % TWO64, (e.base + e.length) % TWO64;
    assert AlignUp(e.base) == up / 4096 * 4096 && AlignDown(end) == end / 4096 * 4096;
    if e.base + 4095 < TWO64 { UpTo(e.base, p); } else { assert up < 4096; }
    DownTo(end, p);
  }

  lemma UpTo(a: nat, p: nat)
    ensures (a + 4095) / 4096 * 4096 <= p * 4096 <==> a <= p * 4096
  {}

  lemma DownTo(a: nat, p: nat)
    ensures p * 4096 < a / 4096 * 4096 <==> p * 4096 + 4096 <= a
  {}

  /** The bitmap's pages are those that hold a byte of its 256 KB. */
  lemma BitmapPages(bmStart: nat, p: nat)
    ensures p in Pages(bmStart / 4096, BitmapSpan(bmStart)) <==>
      bmStart < p * 4096 + 4096 && p * 4096 < bmStart + 0x4_0000
  {
    var last := (bmStart + BITMAP_BYTES + 4095) / 4096;
    assert bmStart / 4096 <= p <==> bmStart < p * 4096 + 4096;
    assert p < last <==> p * 4096 < bmStart + 0x4_0000;
  }

  /** Those of them that lie below an address. */
  ghost function RegionBelow(e: Region, addr: nat): set<nat> {
    set p | p in RegionPages(e) && p * 4096 < addr
  }

  lemma RegionBelowStep(e: Region, page: nat)
    requires AlignUp(e.base) <= page * 4096 < AlignDown((e.base + e.length) % TWO64) && page < MAX_PAGES
    ensures page !in RegionBelow(e, page * 4096)
    ensures RegionBelow(e, page * 4096 + 4096) == RegionBelow(e, page * 4096) + (if e.available then {page} else {})
  {}

  lemma RegionBelowEnds(e: Region, addr: nat)
    ensures addr <= AlignUp(e.base) ==> RegionBelow(e, addr) == {}
    ensures addr >= AlignDown((e.base + e.length) % TWO64) || addr / 4096 >= MAX_PAGES
      ==> RegionBelow(e, addr) == RegionPages(e)
  {}

  ghost function AvailablePages(es: seq<Region>): set<nat> {
    if es == [] then {} else AvailablePages(es[..|es| - 1]) + RegionPages(es[|es| - 1])
  }

  /** How many pages the counter sees: entries are counted one by one, overlapping or not. */
  ghost function CountedPages(es: seq<Region>): nat {
    if es == [] then 0 else CountedPages(es[..|es| - 1]) + |RegionPages(es[|es| - 1])|
  }

  ghost predicate DisjointRegions(es: seq<Region>) {
    forall i, j | 0 <= i < j < |es| :: RegionPages(es[i]) !! RegionPages(es[j])
  }

  lemma {:induction false} AvailableMember(es: seq<Region>, p: nat)
    ensures p in AvailablePages(es) <==> exists i :: 0 <= i < |es| && p in RegionPages(es[i])
  {
    if es != [] {
      var fst := es[..|es| - 1];
      AvailableMember(fst, p);
      if i :| 0 <= i < |fst| && p in RegionPages(fst[i]) { assert p in RegionPages(es[i]); }
      if i :| 0 <= i < |es| && p in RegionPages(es[i]) {
        if i < |fst| { assert p in RegionPages(fst[i]); }
      }
    }
  }

  lemma UnionSize(a: set<nat>, b: set<nat>)
    ensures |a + b| <= |a| + |b|
    ensures |a + b| == |a| + |b| <==> a !! b
  {
    assert a + b == a + (b - a);
    assert b == (b - a) + (b * a);
    assert |b| == |b - a| + |b * a|;
    if a !! b { assert b * a == {}; }
  }

  /** The counter Init leaves is right exactly when no page is listed as available twice. */
  lemma {:induction false} CountExactIffDisjoint(es: seq<Region>)
    ensures CountedPages(es) >= |AvailablePages(es)|
    ensures CountedPages(es) == |AvailablePages(es)| <==> DisjointRegions(es)
  {
    if es != [] {
      var fst, e := es[..|es| - 1], es[|es| - 1];
      CountExactIffDisjoint(fst);
      UnionSize(AvailablePages(fst), RegionPages(e));
      DisjointStep(es);
    }
  }

  /** An input where it is wrong: a page that two entries list is counted twice. */
  lemma ListedTwiceCountsTwice()
    ensures var e := Region(0x20_0000, 4096, true);
      CountedPages([e, e]) == 2 && AvailablePages([e, e]) == {512}
  {
    var e := Region(0x20_0000, 4096, true);
    assert RegionPages(e) == {512};
    assert [e, e][..1] == [e] && [e][..0] == [];
    assert CountedPages([e]) == CountedPages([]) + 1 && AvailablePages([e]) == AvailablePages([]) + {512};
  }

  lemma DisjointStep(es: seq<Region>)
    requires es != []
    ensures var fst := es[..|es| - 1];
      DisjointRegions(es) <==> DisjointRegions(fst) && AvailablePages(fst) !! RegionPages(es[|es| - 1])
  {
    hide RegionPages, AvailablePages;
    var fst, e := es[..|es| - 1], es[|es| - 1];
    if DisjointRegions(fst) && AvailablePages(fst) !! RegionPages(e) {
      forall i, j | 0 <= i < j < |es| ensures RegionPages(es[i]) !! RegionPages(es[j]) {
        if j < |fst| {
          assert RegionPages(fst[i]) !! RegionPages(fst[j]);
        } else {
          forall p | p in RegionPages(es[i]) ensures p !in RegionPages(e) {
            assert p in RegionPages(fst[i]);
            AvailableMember(fst, p);
          }
        }
      }
    }
    if DisjointRegions(es) {
      assert forall i, j | 0 <= i < j < |fst| :: RegionPages(es[i]) !! RegionPages(es[j]);
      forall p | p in AvailablePages(fst) ensures p !in RegionPages(e) {
        AvailableMember(fst, p);
        var i :| 0 <= i < |fst| && p in RegionPages(fst[i]);
        assert RegionPages(es[i]) !! RegionPages(es[|es| - 1]);
      }
    }
  }

  class Pmm {
    const bitmap: array<bv8>
    var freePages: nat
    var searchHint: nat
    ghost var used: seq<bool>
    /** What the counter is too high by: pages the boot map listed more than once. */
    ghost var surplus: nat

    ghost predicate Mirrors()
      reads this`used, bitmap
      ensures Mirrors() ==> bitmap.Length == BITMAP_BYTES && |used| == MAX_PAGES
    {
      && bitmap.Length == BITMAP_BYTES && |used| == MAX_PAGES
      && forall p: nat | p < MAX_PAGES :: used[p] == BitOf(bitmap[p / 8], p % 8)
    }

    ghost predicate Valid()
      reads this, bitmap
    {
      && Mirrors()
      && searchHint <= MAX_PAGES && (forall p | 0 <= p < searchHint :: used[p])
      && freePages == |FreeSet(used)| + surplus
    }

    constructor ()
      ensures fresh(bitmap) && bitmap.Length == BITMAP_BYTES && freePages == 0 && searchHint == 0
    {
      bitmap := new bv8[BITMAP_BYTES];
      freePages, searchHint := 0, 0;
    }

    /** Init reserves everything, frees what the boot map lists as available, then takes back the
        bitmap's own pages and the first 2 MB. */
    method Init(magicOk: bool, regions: seq<Region>, bmStart: nat)
      requires bitmap.Length == BITMAP_BYTES && freePages == 0 && searchHint == 0
      requires bmStart + BITMAP_BYTES + PAGE_SIZE <= TWO64
      modifies this`used, this`freePages, this`surplus, bitmap
      ensures Valid() && used[0]
      ensures !magicOk ==> FreeSet(used) == {}
      ensures magicOk ==>
        (FreeSet(used) == AvailablePages(regions) - Pages(0, 512) - Pages(bmStart / 4096, BitmapSpan(bmStart)))
      ensures magicOk ==> (surplus == 0 <==> DisjointRegions(regions))
    {
      hide Mirrors, FreeSet, Pages;
      ReserveAll();
      if !magicOk { return; }

      FreeRegions(regions);
      CountExactIffDisjoint(regions);
      Reserve(bmStart / 4096, BitmapSpan(bmStart));
      Reserve(0, 512);
      PageZeroTaken(used);
    }

    method ReserveAll()
      requires bitmap.Length == BITMAP_BYTES
      modifies this`used, this`surplus, bitmap
      ensures Mirrors() && FreeSet(used) == {} && surplus == 0
      ensures used[0]
    {
      var b := 0;
      while b < BITMAP_BYTES
        invariant b <= BITMAP_BYTES
        invariant forall k | 0 <= k < b :: bitmap[k] == 0xFF
      {
        bitmap[b] := 0xFF;
        b := b + 1;
      }
      used := seq(MAX_PAGES, _ => true);
      surplus := 0;
      forall j: nat | j < 8 ensures BitOf(0xFF, j) { AllOnes(j); }
    }

    method FreeRegions(regions: seq<Region>)
      requires Mirrors() && FreeSet(used) == {} && freePages == 0 && searchHint == 0
      modifies this`used, this`freePages, this`surplus, bitmap
      ensures Valid() && FreeSet(used) == AvailablePages(regions)
      ensures freePages == CountedPages(regions)
    {
      hide Mirrors, FreeSet, RegionPages, DisjointRegions;
      var i := 0;
      while i < |regions|
        invariant 0 <= i <= |regions| && Mirrors()
        invariant FreeSet(used) == AvailablePages(regions[..i])
        invariant freePages == CountedPages(regions[..i])
      {
        assert regions[..i + 1][..i] == regions[..i];
        FreeRegion(regions[i]);
        i := i + 1;
      }
      assert regions[..i] == regions;
      CountExactIffDisjoint(regions);
      surplus := freePages - |FreeSet(used)|;
    }

    method FreeRegion(e: Region)
      requires Mirrors()
      modifies this`used, this`freePages, bitmap
      ensures Mirrors()
      ensures FreeSet(used) == FreeSet(old(used)) + RegionPages(e)
      ensures freePages == old(freePages) + |RegionPages(e)|
    {
      hide Mirrors, FreeSet, RegionPages, RegionBelow;
      var base := AlignUp(e.base);
      var end := AlignDown((e.base + e.length) % TWO64);
      var addr := base;
      RegionBelowEnds(e, addr);
      while addr < end
        invariant base <= addr && addr % 4096 == 0 && Mirrors()
        invariant FreeSet(used) == FreeSet(old(used)) + RegionBelow(e, addr)
        invariant freePages == old(freePages) + |RegionBelow(e, addr)|
      {
        var page := addr / 4096;
        if page >= MAX_PAGES { break; }
        RegionBelowStep(e, page);
        if e.available { FreeOne(page); }
        addr := addr + 4096;
      }
      RegionBelowEnds(e, addr);
    }

    method FreeOne(page: nat)
      requires Mirrors() && page < MAX_PAGES
      modifies this`used, this`freePages, bitmap
      ensures Mirrors() && FreeSet(used) == FreeSet(old(used)) + {page} && freePages == old(freePages) + 1
    {
      hide Mirrors, FreeSet;
      FreeSetUpdate(used, page);
      BitmapClear(page);
      freePages := freePages + 1;
    }

    /** Both reserving loops of Init. */
    method Reserve(start: nat, count: nat)
      requires Valid() && searchHint == 0
      modifies this`used, this`freePages, bitmap
      ensures Valid()
      ensures FreeSet(used) == FreeSet(old(used)) - Pages(start, count)
    {
      hide Mirrors, FreeSet, Pages;
      PagesStep(start, 0);
      var page := start;
      while page < start + count
        invariant start <= page <= start + count
        invariant Valid() && FreeSet(used) == FreeSet(old(used)) - Pages(start, page - start)
      {
        PagesStep(start, page - start);
        ReserveOne(page);
        page := page + 1;
      }
    }

    method ReserveOne(page: nat)
      requires Valid() && searchHint == 0
      modifies this`used, this`freePages, bitmap
      ensures Valid()
      ensures FreeSet(used) == FreeSet(old(used)) - {page}
    {
      if page < MAX_PAGES {
        var taken := BitmapTest(page);
        if !taken {
          FreeSetUpdate(used, page);
          assert page in FreeSet(used);
          BitmapSet(page);
          if freePages > 0 { freePages := freePages - 1; }
        }
      }
    }

    method BitmapSet(page: nat)
      requires Mirrors() && page < MAX_PAGES
      modifies this`used, bitmap
      ensures Mirrors() && used == old(used)[page := true]
    {
      forall j: nat | j < 8 { SetBit(bitmap[page / 8], page % 8, j); }
      bitmap[page / 8] := bitmap[page / 8] | (1 << (page % 8));
      used := used[page := true];
    }

    method BitmapClear(page: nat)
      requires Mirrors() && page < MAX_PAGES
      modifies this`used, bitmap
      ensures Mirrors() && used == old(used)[page := false]
    {
      forall j: nat | j < 8 { ClearBit(bitmap[page / 8], page % 8, j); }
      bitmap[page / 8] := bitmap[page / 8] & !(1 << (page % 8));
      used := used[page := false];
    }

    method BitmapTest(page: nat) returns (b: bool)
      requires Mirrors() && page < MAX_PAGES
      ensures b == used[page]
    {
      b := (bitmap[page / 8] >> (page % 8)) & 1 == 1;
    }

    method AllocPage() returns (phys: nat)
      requires Valid()
      modifies this`used, this`freePages, this`searchHint, bitmap
      ensures Valid()
      ensures (used, phys) == Alloc(old(used))
    {
      var i := searchHint;
      while i < MAX_PAGES
        invariant Valid() && used == old(used)
        invariant searchHint <= i <= MAX_PAGES
        invariant forall p | 0 <= p < i :: used[p]
      {
        var taken := BitmapTest(i);
        if !taken {
          FreeSetUpdate(used, i);
          assert i in FreeSet(used);
          BitmapSet(i);
          if freePages > 0 { freePages := freePages - 1; }
          searchHint := i + 1;
          phys := i * PAGE_SIZE;
          assert i == FirstFree(old(used));
          return;
        }
        i := i + 1;
      }
      phys := 0;
    }

    method FreePage(phys: nat)
      requires Valid()
      modifies this`used, this`freePages, this`searchHint, bitmap
      ensures Valid()
      ensures used == Free(old(used), phys)
    {
      var page := phys / PAGE_SIZE;
      if page >= MAX_PAGES { return; }
      var taken := BitmapTest(page);
      if !taken { return; }
      FreeSetUpdate(used, page);
      BitmapClear(page);
      freePages := freePages + 1;
      if page < searchHint { searchHint := page; }
    }

    method AllocPages(count: nat) returns (phys: nat)
      requires Valid()
      modifies this`used, this`freePages, bitmap
      ensures Valid()
      ensures (used, phys) == AllocMany(old(used), count)
    {
      if count == 0 { return 0; }
      var run, i := 0, 0;
      while i < MAX_PAGES
        invariant Valid() && used == old(used)
        invariant 0 <= run <= i <= MAX_PAGES && run < count
        invariant forall p | i - run <= p < i :: !used[p]
        invariant i - run > 0 ==> used[i - run - 1]
        invariant forall s: nat | s + count <= i :: !FreeRun(used, s, count)
      {
        var taken := BitmapTest(i);
        if !taken {
          run := run + 1;
          if run == count {
            phys := TakeRun(i - count + 1, count);
            return;
          }
        } else {
          run := 0;
        }
        i := i + 1;
      }
      phys := 0;
    }

    /** The inner loop of AllocPages: mark the run that was found. */
    method TakeRun(start: nat, count: nat) returns (phys: nat)
      requires Valid() && 0 < count && FreeRun(used, start, count) && start + count <= MAX_PAGES
      requires forall s: nat | s < start :: !FreeRun(used, s, count)
      modifies this`used, this`freePages, bitmap
      ensures Valid()
      ensures (used, phys) == AllocMany(old(used), count)
    {
      var j := start;
      while j < start + count
        invariant start <= j <= start + count
        invariant Valid() && used == SetRange(old(used), start, j - start)
      {
        FreeSetUpdate(used, j);
        assert j in FreeSet(used);
        BitmapSet(j);
        if freePages > 0 { freePages := freePages - 1; }
        j := j + 1;
      }
      assert start == FirstRun(old(used), count);
      phys := start * PAGE_SIZE;
    }
  }
}
