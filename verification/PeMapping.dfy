/** The image that MapSections of kernel/ldr/pe_loader.cpp lays out, page by page, and what it shows
    of the file. */
module PeMapping {
  import opened Wrappers
  import opened ByteBuffers
  import opened PeFormat

  /** The pages of an image, numbered from its base. */
  type Image = map<nat, seq<byte>>

  /** The header page: the first 4096 bytes of the file. */
  function HeaderPage(file: seq<byte>): (page: seq<byte>)
    ensures |page| == 4096
  {
    seq(4096, i requires 0 <= i < 4096 => if i < |file| then file[i] else 0)
  }

  /** How much of page `pg` of a section is copied from the file: a whole page as long as the page
      begins inside the raw data, even if the raw data ends in it. */
  function Copied(file: seq<byte>, s: Section, pg: nat): (n: nat)
    ensures n <= 4096 && (n > 0 ==> s.rawOff + pg * 4096 + n <= |file|)
  {
    var off := s.rawOff + pg * 4096;
    if s.rawOff == 0 || s.rawSize == 0 || off >= |file| || off >= (s.rawOff + s.rawSize) % TWO32 then 0
    else Min(4096, |file| - off)
  }

  function SectionPage(file: seq<byte>, s: Section, pg: nat): (page: seq<byte>)
    ensures |page| == 4096
  {
    seq(4096, i requires 0 <= i < 4096 => if i < Copied(file, s, pg) then file[s.rawOff + pg * 4096 + i] else 0)
  }

  /** Pages of a section, in 32-bit arithmetic. */
  function PageCount(size: nat): nat { (size + 4095) % TWO32 / 4096 }

  /** The first `n` pages of a section, over what was there. */
  function WithSection(img: Image, file: seq<byte>, s: Section, n: nat): Image {
    if n == 0 then img else WithSection(img, file, s, n - 1)[s.rva / 4096 + (n - 1) := SectionPage(file, s, n - 1)]
  }

  /** A section without size or address is not mapped. */
  function Skipped(s: Section): bool { s.size == 0 || s.rva == 0 }

  /** The header page and the first `k` sections. */
  function ImageOf(file: seq<byte>, secs: seq<Section>, k: nat): Image
    requires k <= |secs|
  {
    if k == 0 then map[0 := HeaderPage(file)] else
    var img := ImageOf(file, secs, k - 1);
    if Skipped(secs[k - 1]) then img else WithSection(img, file, secs[k - 1], PageCount(secs[k - 1].size))
  }

  // ---- The rights of its pages ---------------------------------------------------------------

  /** The low three bits of a page's entry: present, writable, user. */
  type Bits = map<nat, nat>

  const READ_ONLY: nat := 5
  const READ_WRITE: nat := 7

  /** IMAGE_SCN_MEM_WRITE, bit 31 of a section's characteristics, decides. */
  function SectionBits(s: Section): nat { if s.flags / 0x8000_0000 % 2 == 1 then READ_WRITE else READ_ONLY }

  function WithBits(bits: Bits, s: Section, n: nat): Bits {
    if n == 0 then bits else WithBits(bits, s, n - 1)[s.rva / 4096 + (n - 1) := SectionBits(s)]
  }

  /** The bits of the header page and the pages of the first `k` sections. */
  function BitsOf(secs: seq<Section>, k: nat): Bits
    requires k <= |secs|
  {
    if k == 0 then map[0 := READ_ONLY] else
    var bits := BitsOf(secs, k - 1);
    if Skipped(secs[k - 1]) then bits else WithBits(bits, secs[k - 1], PageCount(secs[k - 1].size))
  }

  lemma {:induction false} WithBitsAt(bits: Bits, s: Section, n: nat, p: nat)
    ensures var now := WithBits(bits, s, n);
      if s.rva / 4096 <= p < s.rva / 4096 + n then p in now && now[p] == SectionBits(s)
      else (p in now <==> p in bits) && (p in bits ==> now[p] == bits[p])
  {
    hide SectionBits;
    if n > 0 { WithBitsAt(bits, s, n - 1, p); }
  }

  ghost predicate PageBits(bits: Bits, s: Section, pg: nat) {
    s.rva / 4096 + pg in bits && bits[s.rva / 4096 + pg] == SectionBits(s)
  }

  /** In a laid-out image every section page has its section's bits, and the header page is read-only. */
  lemma {:induction false} BitsHold(file: seq<byte>, secs: seq<Section>, k: nat)
    requires k <= |secs|
    requires forall i | 0 <= i < |secs| :: SectionOk(file, secs[i])
    requires forall i, j | 0 <= i < j < |secs| :: Apart(secs[i], secs[j])
    ensures 0 in BitsOf(secs, k) && BitsOf(secs, k)[0] == READ_ONLY
    ensures forall i, pg: nat | 0 <= i < k && pg < PagesOf(secs[i].size) :: PageBits(BitsOf(secs, k), secs[i], pg)
  {
    hide SectionBits, SectionOk, Apart, WithBits, PageCount, PagesOf;
    if k > 0 {
      BitsHold(file, secs, k - 1);
      var was, s := BitsOf(secs, k - 1), secs[k - 1];
      if s.size > 0 {
        SectionPages(file, s);
        var n := PageCount(s.size);
        WithBitsAt(was, s, n, 0);
        forall i, pg: nat | 0 <= i < k && pg < PagesOf(secs[i].size) ensures PageBits(BitsOf(secs, k), secs[i], pg) {
          WithBitsAt(was, s, n, secs[i].rva / 4096 + pg);
          NoPagesOfNothing(secs[i].size);
          if i < k - 1 {
            assert PageBits(was, secs[i], pg) && Apart(secs[i], secs[k - 1]);
            PagesApart(file, secs[i], s, pg);
          }
        }
      } else {
        NoPagesOfNothing(s.size);
      }
    }
  }

  lemma NoPagesOfNothing(size: nat)
    ensures PagesOf(size) == 0 <==> size == 0
  {}

  // ---- The image holds every section ------------------------------------------------------

  ghost predicate HoldsPage(img: Image, file: seq<byte>, s: Section, pg: nat) {
    s.rva / 4096 + pg in img && img[s.rva / 4096 + pg] == SectionPage(file, s, pg)
  }

  ghost predicate Holds(img: Image, file: seq<byte>, s: Section) {
    forall pg: nat | pg < PagesOf(s.size) :: HoldsPage(img, file, s, pg)
  }

  lemma {:induction false} WithSectionAt(img: Image, file: seq<byte>, s: Section, n: nat, p: nat)
    ensures var now := WithSection(img, file, s, n);
      if s.rva / 4096 <= p < s.rva / 4096 + n then p in now && now[p] == SectionPage(file, s, p - s.rva / 4096)
      else (p in now <==> p in img) && (p in img ==> now[p] == img[p])
  {
    hide SectionPage;
    if n > 0 { WithSectionAt(img, file, s, n - 1, p); }
  }

  lemma SectionPages(file: seq<byte>, s: Section)
    requires SectionOk(file, s) && s.size > 0
    ensures !Skipped(s) && PageCount(s.size) == PagesOf(s.size) && s.rva / 4096 >= 1
  {}

  /** Pages of sections apart are different. */
  lemma PagesApart(file: seq<byte>, s: Section, t: Section, pg: nat)
    requires SectionOk(file, s) && SectionOk(file, t) && Apart(s, t) && s.size > 0 && t.size > 0 && pg < PagesOf(s.size)
    ensures !(t.rva / 4096 <= s.rva / 4096 + pg < t.rva / 4096 + PagesOf(t.size))
  {
    assert s.rva == s.rva / 4096 * 4096 && t.rva == t.rva / 4096 * 4096;
  }

  lemma {:induction false} ImageHolds(file: seq<byte>, secs: seq<Section>, k: nat)
    requires k <= |secs|
    requires forall i | 0 <= i < |secs| :: SectionOk(file, secs[i])
    requires forall i, j | 0 <= i < j < |secs| :: Apart(secs[i], secs[j])
    ensures var img := ImageOf(file, secs, k);
      && 0 in img && img[0] == HeaderPage(file)
      && forall i | 0 <= i < k && secs[i].size > 0 :: Holds(img, file, secs[i])
  {
    hide SectionPage, HeaderPage, SectionOk, Apart, WithSection, PageCount, PagesOf;
    if k > 0 {
      ImageHolds(file, secs, k - 1);
      var was, s := ImageOf(file, secs, k - 1), secs[k - 1];
      if s.size > 0 {
        SectionPages(file, s);
        var n := PageCount(s.size);
        var img := WithSection(was, file, s, n);
        WithSectionAt(was, file, s, n, 0);
        forall i | 0 <= i < k && secs[i].size > 0 ensures Holds(img, file, secs[i]) {
          forall pg: nat | pg < PagesOf(secs[i].size) ensures HoldsPage(img, file, secs[i], pg) {
            WithSectionAt(was, file, s, n, secs[i].rva / 4096 + pg);
            if i < k - 1 {
              assert HoldsPage(was, file, secs[i], pg);
              assert Apart(secs[i], secs[k - 1]);
              PagesApart(file, secs[i], s, pg);
            }
          }
        }
      }
    }
  }

  // ---- What is seen of it -------------------------------------------------------------------

  /** The byte at an offset is the image's, unless it is dirty. */
  ghost predicate SeesByte(m: Memory, img: Image, dirty: set<nat>, o: nat) {
    o / 4096 in img && |img[o / 4096]| == 4096 && o !in dirty ==> Byte(m, o) == Some(img[o / 4096][o % 4096])
  }

  ghost predicate Sees(m: Memory, img: Image, dirty: set<nat>) { forall o: nat :: SeesByte(m, img, dirty, o) }

  lemma SectionByteShown(m: Memory, img: Image, file: seq<byte>, s: Section, dirty: set<nat>, o: nat)
    requires |file| < TWO32 && SectionOk(file, s) && Holds(img, file, s) && SeesByte(m, img, dirty, s.rva + o)
    requires o < Min(s.size, s.rawSize)
    ensures Shown(m, file, s, dirty, o)
  {
    hide Byte;
    var pg := o / 4096;
    assert (s.rva + o) / 4096 == s.rva / 4096 + pg && (s.rva + o) % 4096 == o % 4096;
    assert pg < PagesOf(s.size) && HoldsPage(img, file, s, pg);
    assert o % 4096 < Copied(file, s, pg);
    InFileAt(file, s.rawOff + o);
  }

  lemma InFileAt(file: seq<byte>, o: nat)
    requires o < |file|
    ensures Byte(Blob(file), o) == Some(file[o])
  {}

  /** The mapped image shows the file: the header page and the file part of every section. */
  lemma ImageShows(m: Memory, file: seq<byte>, l: Layout, dirty: set<nat>)
    requires Placed(file, l) && Sees(m, ImageOf(file, l.secs, |l.secs|), dirty)
    ensures Shows(m, file, l, dirty)
  {
    hide Byte, ImageOf, Holds, SectionOk, Apart, Shown, Min;
    var img := ImageOf(file, l.secs, |l.secs|);
    ImageHolds(file, l.secs, |l.secs|);
    HeaderPageShown(m, img, file, dirty);
    forall i | 0 <= i < |l.secs| ensures SectionShown(m, file, l.secs[i], dirty) {
      var s := l.secs[i];
      forall o: nat | o < Min(s.size, s.rawSize) ensures Shown(m, file, s, dirty, o) {
        assert SeesByte(m, img, dirty, s.rva + o);
        MinSize(s);
        SectionByteShown(m, img, file, s, dirty, o);
      }
    }
  }

  lemma MinSize(s: Section)
    ensures Min(s.size, s.rawSize) <= s.size
  {}

  lemma HeaderPageShown(m: Memory, img: Image, file: seq<byte>, dirty: set<nat>)
    requires Sees(m, img, dirty) && 0 in img && img[0] == HeaderPage(file)
    ensures HeaderShown(m, file, dirty)
  {
    hide Byte;
    forall o: nat | o < 4096 && o < |file| && o !in dirty ensures Byte(m, o) == Byte(Blob(file), o) {
      assert SeesByte(m, img, dirty, o);
      InFileAt(file, o);
    }
  }

  /** What the loader puts at byte `o` of a section: the file's byte up to the end of the last page
      that holds raw data, even behind the raw data itself, and zero from there on. */
  function Expected(file: seq<byte>, s: Section, o: nat): byte {
    if s.rawSize > 0 && o / 4096 * 4096 < s.rawSize && s.rawOff + o < |file| then file[s.rawOff + o] else 0
  }

  lemma SectionByte(file: seq<byte>, s: Section, o: nat)
    requires SectionOk(file, s) && |file| < TWO32
    ensures SectionPage(file, s, o / 4096)[o % 4096] == Expected(file, s, o)
  {
    var pg, i := o / 4096, o % 4096;
    assert pg * 4096 + i == o;
    CopiedIff(file, s, pg, i);
    hide Copied, SectionOk;
    assert s.rawOff + pg * 4096 + i == s.rawOff + o;
  }

  lemma CopiedIff(file: seq<byte>, s: Section, pg: nat, i: nat)
    requires SectionOk(file, s) && |file| < TWO32 && i < 4096
    ensures i < Copied(file, s, pg) <==> s.rawSize > 0 && pg * 4096 < s.rawSize && s.rawOff + pg * 4096 + i < |file|
  {
    assert s.rawSize > 0 ==> (s.rawOff + s.rawSize) % TWO32 == s.rawOff + s.rawSize;
  }

  /** Every mapped byte of a section is the expected one, unless it is dirty. */
  lemma SectionSeen(m: Memory, file: seq<byte>, l: Layout, dirty: set<nat>, i: nat, o: nat)
    requires Placed(file, l) && Sees(m, ImageOf(file, l.secs, |l.secs|), dirty) && i < |l.secs|
    requires o < PagesOf(l.secs[i].size) * 4096 && l.secs[i].rva + o !in dirty
    ensures Byte(m, l.secs[i].rva + o) == Some(Expected(file, l.secs[i], o))
  {
    hide Byte, ImageOf, Expected, Apart, SectionPage;
    var s, img := l.secs[i], ImageOf(file, l.secs, |l.secs|);
    ImageHolds(file, l.secs, |l.secs|);
    assert SectionOk(file, s) && SeesByte(m, img, dirty, s.rva + o);
    SectionOffset(file, s, o);
    assert HoldsPage(img, file, s, o / 4096);
    SectionByte(file, s, o);
  }

  lemma SectionOffset(file: seq<byte>, s: Section, o: nat)
    requires SectionOk(file, s) && o < PagesOf(s.size) * 4096
    ensures s.size > 0 && o / 4096 < PagesOf(s.size)
    ensures (s.rva + o) / 4096 == s.rva / 4096 + o / 4096 && (s.rva + o) % 4096 == o % 4096
  {}
}
