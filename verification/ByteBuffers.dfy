/** Byte buffers filled in place, as the image builders of tools/mkdisk.py and tools/mkiso.py fill
    their bytearrays. */
module ByteBuffers {

  type byte = x: int | 0 <= x < 256

  function LowByte(n: nat): byte { n % 256 }

  function Le16(n: nat): (s: seq<byte>)
    requires n < 0x1_0000
    ensures |s| == 2
  {
    [LowByte(n), LowByte(n / 0x100)]
  }

  function Le32(n: nat): (s: seq<byte>)
    requires n < 0x1_0000_0000
    ensures |s| == 4
  {
    [LowByte(n), LowByte(n / 0x100), LowByte(n / 0x1_0000), LowByte(n / 0x100_0000)]
  }

  function U16(s: seq<byte>, off: nat): (n: nat)
    requires off + 2 <= |s|
    ensures n < 0x1_0000
  {
    var a: int, b: int := s[off], s[off + 1];
    a + 0x100 * b
  }

  function U32(s: seq<byte>, off: nat): (n: nat)
    requires off + 4 <= |s|
    ensures n < 0x1_0000_0000
  {
    var a: int, b: int, c: int, d: int := s[off], s[off + 1], s[off + 2], s[off + 3];
    a + 0x100 * b + 0x1_0000 * c + 0x100_0000 * d
  }

  lemma Le32Value(n: nat)
    requires n < 0x1_0000_0000
    ensures n % 256 + 0x100 * (n / 0x100 % 256) + 0x1_0000 * (n / 0x1_0000 % 256) + 0x100_0000 * (n / 0x100_0000 % 256)
      == n
  {
    var a, b, c := n / 0x100, n / 0x1_0000, n / 0x100_0000;
    assert n == n % 256 + 256 * a;
    assert a == a % 256 + 256 * (a / 256);
    assert a / 256 == b;
    assert b == b % 256 + 256 * (b / 256);
    assert b / 256 == c;
  }

  /** The bytes of `data` are at offset `off`. */
  predicate At(s: seq<byte>, off: nat, data: seq<byte>) {
    off + |data| <= |s| && forall i | 0 <= i < |data| :: data[i] == s[off + i]
  }

  lemma AtByte(s: seq<byte>, off: nat, data: seq<byte>, i: nat)
    requires At(s, off, data) && i < |data|
    ensures s[off + i] == data[i]
  {}

  lemma AtSlice(s: seq<byte>, off: nat, data: seq<byte>)
    requires off + |data| <= |s|
    ensures At(s, off, data) <==> s[off..off + |data|] == data
  {
    assert At(s, off, s[off..off + |data|]);
    if At(s, off, data) {
      assert forall i | 0 <= i < |data| :: s[off..off + |data|][i] == data[i];
    }
  }

  lemma AtU32(s: seq<byte>, off: nat, n: nat)
    requires n < 0x1_0000_0000 && At(s, off, Le32(n))
    ensures U32(s, off) == n
  {
    AtByte(s, off, Le32(n), 0);
    AtByte(s, off, Le32(n), 1);
    AtByte(s, off, Le32(n), 2);
    AtByte(s, off, Le32(n), 3);
    Le32Value(n);
  }

  lemma AtU16(s: seq<byte>, off: nat, n: nat)
    requires n < 0x1_0000 && At(s, off, Le16(n))
    ensures U16(s, off) == n
  {
    AtByte(s, off, Le16(n), 0);
    AtByte(s, off, Le16(n), 1);
  }

  /** A part of what is there is there. */
  lemma AtPart(s: seq<byte>, off: nat, data: seq<byte>, i: nat, part: seq<byte>)
    requires At(s, off, data) && At(data, i, part)
    ensures At(s, off + i, part)
  {
    forall k | 0 <= k < |part| ensures s[off + i + k] == part[k] {
      AtByte(data, i, part, k);
      AtByte(s, off, data, i + k);
    }
  }

  /** `s` with `data` written at `off`. */
  function Patched(s: seq<byte>, off: nat, data: seq<byte>): (r: seq<byte>)
    requires off + |data| <= |s|
    ensures |r| == |s|
  {
    s[..off] + data + s[off + |data|..]
  }

  lemma PatchedAt(s: seq<byte>, off: nat, data: seq<byte>)
    requires off + |data| <= |s|
    ensures At(Patched(s, off, data), off, data)
  {}

  lemma PatchedElsewhere(s: seq<byte>, off: nat, data: seq<byte>, at: nat, other: seq<byte>)
    requires off + |data| <= |s| && At(s, at, other) && (at + |other| <= off || off + |data| <= at)
    ensures At(Patched(s, off, data), at, other)
  {
    var r := Patched(s, off, data);
    assert forall i | at <= i < at + |other| :: r[i] == s[i];
  }

  /** `buffer[off:off + len(data)] = data`, inside the buffer. */
  method Blit(a: array<byte>, off: nat, data: seq<byte>)
    requires off + |data| <= a.Length
    modifies a
    ensures a[..] == Patched(old(a[..]), off, data)
  {
    var i := 0;
    while i < |data|
      invariant i <= |data|
      invariant forall k | 0 <= k < a.Length :: a[k] == if off <= k < off + i then data[k - off] else old(a[k])
    {
      a[off + i] := data[i];
      i := i + 1;
    }
    ghost var r := Patched(old(a[..]), off, data);
    assert forall k | 0 <= k < a.Length :: a[k] == r[k];
  }

  function Fill(b: byte, n: nat): (s: seq<byte>)
    ensures |s| == n && forall i | 0 <= i < n :: s[i] == b
  {
    seq(n, i => b)
  }

  /** `bytes.ljust(n, b' ')` of at most `n` bytes. */
  function Ljust(s: seq<byte>, n: nat): (r: seq<byte>)
    ensures |r| == n
  {
    if |s| >= n then s[..n] else s + Fill(0x20, n - |s|)
  }

  // ---- Fields written one behind the other ----------------------------------------------

  /** A piece of data at a place. */
  datatype Field = Field(off: nat, data: seq<byte>)

  ghost predicate AllAt(s: seq<byte>, fs: seq<Field>) { forall i | 0 <= i < |fs| :: At(s, fs[i].off, fs[i].data) }

  /** Every field ends at or before an offset. */
  ghost predicate Below(fs: seq<Field>, off: nat) { forall i | 0 <= i < |fs| :: fs[i].off + |fs[i].data| <= off }

  ghost predicate InNone(fs: seq<Field>, i: nat) {
    forall k | 0 <= k < |fs| :: !(fs[k].off <= i < fs[k].off + |fs[k].data|)
  }

  /** Bytes in no field are zero. */
  ghost predicate Blank(s: seq<byte>, fs: seq<Field>) { forall i: nat | i < |s| && InNone(fs, i) :: s[i] == 0 }

  lemma NoFields(s: seq<byte>)
    requires forall i | 0 <= i < |s| :: s[i] == 0
    ensures Blank(s, [])
  {}

  /** The fields, and zeros elsewhere. */
  ghost predicate Filled(s: seq<byte>, fs: seq<Field>) { AllAt(s, fs) && Blank(s, fs) }

  lemma OneMore(fs: seq<Field>, f: Field, i: nat)
    ensures InNone(fs + [f], i) <==> InNone(fs, i) && !(f.off <= i < f.off + |f.data|)
  {
    var gs := fs + [f];
    assert gs[|fs|] == f && forall k | 0 <= k < |fs| :: gs[k] == fs[k];
  }

  /** No field overlaps a range. */
  ghost predicate Clear(fs: seq<Field>, from: nat, to: nat) {
    forall k | 0 <= k < |fs| :: fs[k].off + |fs[k].data| <= from || to <= fs[k].off
  }

  /** Writes a field where none is yet; the others stay. */
  method Place(a: array<byte>, off: nat, data: seq<byte>, ghost fs: seq<Field>)
    requires off + |data| <= a.Length && AllAt(a[..], fs) && Clear(fs, off, off + |data|)
    modifies a
    ensures AllAt(a[..], fs + [Field(off, data)])
    ensures Blank(old(a[..]), fs) ==> Blank(a[..], fs + [Field(off, data)])
  {
    ghost var was := a[..];
    Blit(a, off, data);
    PatchedAt(was, off, data);
    forall i | 0 <= i < |fs| ensures At(a[..], fs[i].off, fs[i].data) {
      PatchedElsewhere(was, off, data, fs[i].off, fs[i].data);
    }
    StaysBlank(was, a[..], off, data, fs);
  }

  lemma StaysBlank(was: seq<byte>, now: seq<byte>, off: nat, data: seq<byte>, fs: seq<Field>)
    requires off + |data| <= |was| && now == Patched(was, off, data)
    ensures Blank(was, fs) ==> Blank(now, fs + [Field(off, data)])
  {
    hide InNone;
    forall i: nat | i < |now| && InNone(fs + [Field(off, data)], i) && Blank(was, fs) ensures now[i] == 0 {
      OneMore(fs, Field(off, data), i);
    }
  }

  /** Writes a field behind all earlier ones. */
  method Append(a: array<byte>, off: nat, data: seq<byte>, ghost fs: seq<Field>)
    requires off + |data| <= a.Length && AllAt(a[..], fs) && Below(fs, off)
    modifies a
    ensures AllAt(a[..], fs + [Field(off, data)]) && Below(fs + [Field(off, data)], off + |data|)
    ensures Blank(old(a[..]), fs) ==> Blank(a[..], fs + [Field(off, data)])
  {
    hide At, Blank;
    Place(a, off, data, fs);
  }

  /** The first `k` of a list of fields are there, the rest is zero. */
  ghost predicate Begun(s: seq<byte>, all: seq<Field>, k: nat)
    requires k <= |all|
  {
    Filled(s, all[..k]) && (forall i, j | 0 <= i < j < |all| :: all[i].off + |all[i].data| <= all[j].off)
  }

  lemma NoneYet(s: seq<byte>, all: seq<Field>)
    requires (forall i | 0 <= i < |s| :: s[i] == 0)
    requires forall i, j | 0 <= i < j < |all| :: all[i].off + |all[i].data| <= all[j].off
    ensures Begun(s, all, 0)
  {}

  /** Writes the next field of a list. */
  method PutNext(a: array<byte>, off: nat, data: seq<byte>, ghost all: seq<Field>, ghost k: nat)
    requires k < |all| && all[k] == Field(off, data) && off + |data| <= a.Length && Begun(a[..], all, k)
    modifies a
    ensures Begun(a[..], all, k + 1)
  {
    hide At, Blank;
    assert all[..k] + [all[k]] == all[..k + 1];
    forall i | 0 <= i < k ensures all[i].off + |all[i].data| <= off { assert all[k].off == off; }
    Append(a, off, data, all[..k]);
  }

  lemma AllBegun(s: seq<byte>, all: seq<Field>)
    requires Begun(s, all, |all|)
    ensures Filled(s, all)
  {
    hide Filled;
    assert all[..|all|] == all;
  }
}
