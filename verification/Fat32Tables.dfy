/** build_fat32_part, filling its byte arrays in place: the file allocation table. */
module Fat32Tables {
  import opened Wrappers
  import opened ByteBuffers
  import opened FatReader
  import opened Fat32Spec

  // ---- The file allocation table -------------------------------------------------------------

  /** Clusters left for data when the tables take `fatSec` sectors each. */
  function Clusters(ps: nat, fatSec: nat): int { ps - (RES + NF * fatSec) }

  /** The size of the table after `k` rounds of estimation. */
  function Estimate(ps: nat, k: nat): (fatSec: nat)
    ensures fatSec >= 1
  {
    if k == 0 then 1 else
    var n := (Clusters(ps, Estimate(ps, k - 1)) * 4 + S - 1) / S;
    if n > 1 then n else 1
  }

  lemma {:induction false} EstimateIsSmall(ps: nat, k: nat)
    requires ps < 0x1_0000_0000
    ensures Estimate(ps, k) < 0x1_0000_0000
  {
    if k > 0 { EstimateIsSmall(ps, k - 1); }
  }

  /** How far off one more round leaves an estimate that is off by `d`. */
  function Off(j: int, d: int): int { (j - 2 * d) / 128 }

  lemma Round(ps: nat, k: nat, f: int, j: int, d: int)
    requires ps == RES + 130 * f - j && Estimate(ps, k) == f - d && f - Off(j, d) >= 1
    ensures Estimate(ps, k + 1) == f - Off(j, d)
  {}

  /** From above zero an estimate goes to at most zero, and back. */
  lemma FirstRounds(j: int, f: int)
    requires -2 <= j <= 127 && 8 <= f < 0x200_0000
    ensures var d := Off(j, Off(j, f - 1)); Off(j, f - 1) <= 0 <= d <= f / 4096 + 1 && d < f
  {
    var d := Off(j, f - 1);
    assert -f / 64 - 1 <= d <= 0;
  }

  lemma MiddleRounds(j: int, d: int)
    requires -2 <= j <= 127 && 0 <= d <= 0x2001
    ensures -129 <= Off(j, d) <= 0 <= Off(j, Off(j, d)) <= 3
  {
    var e := Off(j, d);
    assert -129 <= e <= 0;
  }

  lemma LastRounds(j: int, d: int)
    requires -2 <= j <= 127 && 0 <= d <= 3
    ensures -1 <= Off(j, d) <= 0 && Off(j, Off(j, d)) == 0 && -1 <= Off(j, 0) <= 0 && Off(j, Off(j, 0)) == 0
  {}

  /** Eight rounds are enough for every partition, and this is where they end. */
  lemma EstimateIs(ps: nat)
    requires 1000 <= ps < 0x1_0000_0000
    ensures Estimate(ps, 8) == (ps + 95) / 130
  {
    var f := (ps + 95) / 130;
    var j := RES + 130 * f - ps;
    assert -2 <= j <= 127 && 8 <= f < 0x200_0000;
    var d := Off(j, Off(j, f - 1));
    var e := Off(j, Off(j, d));
    FirstRounds(j, f);
    MiddleRounds(j, d);
    LastRounds(j, e);
    assert Estimate(ps, 0) == f - (f - 1);
    hide Off, Estimate;
    Round(ps, 0, f, j, f - 1);
    Round(ps, 1, f, j, Off(j, f - 1));
    Round(ps, 2, f, j, d);
    Round(ps, 3, f, j, Off(j, d));
    Round(ps, 4, f, j, e);
    Round(ps, 5, f, j, Off(j, e));
    Round(ps, 6, f, j, 0);
    Round(ps, 7, f, j, Off(j, 0));
  }

  /** The table has an entry for every cluster exactly for these sizes; for the others up to four
      clusters at the end have none. */
  lemma TableCoversIff(ps: nat)
    requires 1000 <= ps < 0x1_0000_0000
    ensures var fatSec := Estimate(ps, 8);
      && Clusters(ps, fatSec) + 2 <= fatSec * 128 + 4
      && (Clusters(ps, fatSec) + 2 <= fatSec * 128 <==> 3 <= (ps - RES) % 130 <= 128)
  {
    hide Estimate;
    EstimateIs(ps);
    var f := (ps + 95) / 130;
    var j := RES + 130 * f - ps;
    assert Clusters(ps, f) == 128 * f - j && -2 <= j <= 127;
    Residue(ps - RES, f, j);
  }

  lemma Residue(a: int, f: int, j: int)
    requires a == 130 * f - j && -2 <= j <= 127
    ensures j >= 2 <==> 3 <= a % 130 <= 128
  {
    var m := if j <= 0 then -j else 130 - j;
    assert a == 130 * (if j <= 0 then f else f - 1) + m;
  }

  /** The size of the table: eight rounds of estimation. */
  method FatSectors(ps: nat) returns (fatSec: nat)
    ensures fatSec == Estimate(ps, 8)
  {
    fatSec := 1;
    for i := 0 to 8
      invariant fatSec == Estimate(ps, i)
    {
      var n := (Clusters(ps, fatSec) * 4 + S - 1) / S;
      fatSec := if n > 1 then n else 1;
    }
  }

  /** fat_set: entries beyond the table are skipped. */
  method FatSet(fat: array<byte>, cl: nat, val: nat)
    modifies fat
    ensures 4 * cl + 4 <= fat.Length ==> Entry(fat[..], cl) == val % MASK28 && SameEntries(old(fat[..]), fat[..], cl, 1)
    ensures 4 * cl + 4 > fat.Length ==> fat[..] == old(fat[..])
  {
    if 4 * cl + 4 <= fat.Length {
      SetEntry(fat[..], cl, val);
      Blit(fat, 4 * cl, Le32(val % MASK28));
    }
  }

  /** Links the clusters of a file. */
  method FatChain(fat: array<byte>, first: nat, n: nat)
    requires n >= 1
    modifies fat
    ensures Chained(fat[..], first, n) && SameEntries(old(fat[..]), fat[..], first, n)
  {
    hide Entry;
    var i := first;
    while i < first + n - 1
      invariant first <= i <= first + n - 1
      invariant forall j | first <= j < i && 4 * j + 4 <= fat.Length :: Entry(fat[..], j) == Link(first, n, j)
      invariant SameEntries(old(fat[..]), fat[..], first, n)
    {
      FatSet(fat, i, i + 1);
      i := i + 1;
    }
    FatSet(fat, first + n - 1, EOC);
  }

  method LinkDirectories(fat: array<byte>)
    requires fat.Length >= 24
    modifies fat
    requires forall i | 0 <= i < fat.Length :: fat[i] == 0
    ensures forall cl | CL_ROOT <= cl <= CL_BOOT :: Entry(fat[..], cl) == EOC
    ensures RestFree(fat[..], 6)
  {
    NothingLinked(fat[..]);
    hide Entry;
    FatSet(fat, 0, 0x0FFF_FFF8);
    FatSet(fat, 1, 0x0FFF_FFFF);
    FatSet(fat, CL_ROOT, EOC);
    FatSet(fat, CL_EFI, EOC);
    FatSet(fat, CL_EB, EOC);
    FatSet(fat, CL_BOOT, EOC);
  }

  lemma NothingLinked(fat: seq<byte>)
    requires forall i | 0 <= i < |fat| :: fat[i] == 0
    ensures forall i: nat | 4 * i + 4 <= |fat| :: Entry(fat, i) == 0
  {}

  /** Adds the chain of file `k`. */
  method FatFile(fat: array<byte>, files: seq<seq<byte>>, k: nat)
    requires k < |files| && TableOk(fat[..], files, k) && RestFree(fat[..], First(files, k))
    modifies fat
    ensures TableOk(fat[..], files, k + 1) && RestFree(fat[..], First(files, k + 1))
  {
    ghost var was := fat[..];
    FirstStep(files, k);
    hide Entry, Chained, First;
    FatChain(fat, First(files, k), Ncl(|files[k]|));
    TableKept(was, fat[..], files, k, Ncl(|files[k]|));
    TableGrows(fat[..], files, k);
  }

  lemma TableGrows(fat: seq<byte>, files: seq<seq<byte>>, k: nat)
    requires k < |files| && TableOk(fat, files, k) && Chained(fat, First(files, k), Ncl(|files[k]|))
    ensures TableOk(fat, files, k + 1)
  {
    hide Entry, Chained, Ncl, First;
    forall j | 0 <= j < k + 1 ensures Chained(fat, First(files, j), Ncl(|files[j]|)) {
      assert j < k || j == k;
    }
  }

  lemma FirstStep(files: seq<seq<byte>>, k: nat)
    requires k < |files|
    ensures First(files, k + 1) == First(files, k) + Ncl(|files[k]|)
  {}

  /** The table with the chains of the directories and of all files; the other clusters are free. */
  method BuildTable(fatSec: nat, files: seq<seq<byte>>) returns (fat: array<byte>)
    requires |files| >= 2 && fatSec >= 1
    ensures fresh(fat) && fat.Length == fatSec * S
    ensures TableOk(fat[..], files, |files|) && RestFree(fat[..], First(files, |files|))
  {
    hide Entry, Chained, RestFree;
    fat := new byte[fatSec * S](_ => 0);
    LinkDirectories(fat);
    FatFile(fat, files, 0);
    FatFile(fat, files, 1);
    var k := 2;
    while k < |files|
      invariant 2 <= k <= |files| && TableOk(fat[..], files, k) && RestFree(fat[..], First(files, k))
    {
      FatFile(fat, files, k);
      k := k + 1;
    }
  }
}
