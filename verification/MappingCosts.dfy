/** What mapping a list of pages costs: the pages themselves and the tables on the way to them that do
    not exist yet.  The callers of MapPageInto take pages and map them one by one and stop at the first
    failure; these lemmas say beforehand whether the whole list fits. */
module MappingCosts {
  import opened PmmSpec
  import opened PageTables

  /** The places of the tables on the paths to a list of page numbers of space `r`. */
  ghost function Places(sh: Shape, r: Frame, ps: seq<nat>): set<Pos>
    decreases |ps|
  {
    if ps == [] then {} else Places(sh, r, ps[..|ps| - 1]) + PathPlaces(sh, r, ps[|ps| - 1] * 4096)
  }

  /** How many tables the pages still need. */
  ghost function Needed(sh: Shape, r: Frame, ps: seq<nat>): nat { |Places(sh, r, ps) - sh.at.Keys| }

  /** Free memory covers `data` pages and the tables that the pages need. */
  ghost predicate Room(vm: Vm, sh: Shape, r: Frame, ps: seq<nat>, data: nat) {
    data + Needed(sh, r, ps) <= |FreeSet(vm.used)|
  }

  /** The same for one page. */
  ghost predicate OneFits(vm: Vm, sh: Shape, r: Frame, p: nat, data: nat) {
    data + |PathPlaces(sh, r, p * 4096) - sh.at.Keys| <= |FreeSet(vm.used)|
  }

  /** What it cost to map one page. */
  ghost predicate OneSpent(vm: Vm, sh: Shape, vn: Vm, sn: Shape, r: Frame, p: nat, data: nat) {
    && sn.k == sh.k && sn.copied == sh.copied
    && sn.at.Keys == sh.at.Keys + PathPlaces(sh, r, p * 4096)
    && |FreeSet(vn.used)| + data + |PathPlaces(sh, r, p * 4096) - sh.at.Keys| == |FreeSet(vm.used)|
  }

  /** What it cost to map a list of pages. */
  ghost predicate Spent(v0: Vm, s0: Shape, vm: Vm, sh: Shape, r: Frame, ps: seq<nat>, data: nat) {
    && sh.k == s0.k && sh.copied == s0.copied && sh.at.Keys == s0.at.Keys + Places(s0, r, ps)
    && |FreeSet(vm.used)| + data + Needed(s0, r, ps) == |FreeSet(v0.used)|
  }

  lemma MoreKeys(k: set<Pos>, a: set<Pos>, b: set<Pos>)
    ensures |(a + b) - k| == |a - k| + |b - (k + a)|
  {
    assert (a + b) - k == (a - k) + (b - (k + a));
    assert (a - k) !! (b - (k + a));
  }

  lemma SamePaths(sh: Shape, sn: Shape, r: Frame, va: nat)
    requires sn.k == sh.k && sn.copied == sh.copied
    ensures PathPlaces(sn, r, va) == PathPlaces(sh, r, va)
  {
    hide Pml4Idx, PdptIdx, PdIdx, Dir;
  }

  lemma NothingSpent(vm: Vm, sh: Shape, r: Frame)
    ensures Spent(vm, sh, vm, sh, r, [], 0)
  {
    hide FreeSet;
    assert Places(sh, r, []) - sh.at.Keys == {};
  }

  lemma NextPlaces(s0: Shape, r: Frame, ps: seq<nat>, p: nat)
    ensures Places(s0, r, ps + [p]) == Places(s0, r, ps) + PathPlaces(s0, r, p * 4096)
  {
    hide PathPlaces;
    assert (ps + [p])[..|ps + [p]| - 1] == ps;
  }

  /** One more page of the list. */
  lemma NextNeeded(s0: Shape, r: Frame, ps: seq<nat>, p: nat)
    ensures Places(s0, r, ps + [p]) == Places(s0, r, ps) + PathPlaces(s0, r, p * 4096)
    ensures Needed(s0, r, ps + [p])
      == Needed(s0, r, ps) + |PathPlaces(s0, r, p * 4096) - (s0.at.Keys + Places(s0, r, ps))|
  {
    hide PathPlaces;
    assert (ps + [p])[..|ps + [p]| - 1] == ps;
    MoreKeys(s0.at.Keys, Places(s0, r, ps), PathPlaces(s0, r, p * 4096));
  }

  /** While the pages before have been paid for, the next one fits exactly if the list with it did. */
  lemma NextFits(v0: Vm, s0: Shape, vm: Vm, sh: Shape, r: Frame, ps: seq<nat>, data: nat, p: nat, more: nat)
    requires Spent(v0, s0, vm, sh, r, ps, data)
    ensures OneFits(vm, sh, r, p, more) <==> Room(v0, s0, r, ps + [p], data + more)
  {
    hide PathPlaces, FreeSet, Places, Needed;
    SamePaths(s0, sh, r, p * 4096);
    NextNeeded(s0, r, ps, p);
  }

  lemma KeysTwice(k: set<Pos>, a: set<Pos>, b: set<Pos>)
    ensures k + a + b == k + (a + b)
  {}

  lemma NextSpent(v0: Vm, s0: Shape, vm: Vm, sh: Shape, vn: Vm, sn: Shape, r: Frame, ps: seq<nat>, data: nat,
                  p: nat, more: nat)
    requires Spent(v0, s0, vm, sh, r, ps, data) && OneSpent(vm, sh, vn, sn, r, p, more)
    ensures Spent(v0, s0, vn, sn, r, ps + [p], data + more)
  {
    hide PathPlaces, FreeSet, Places, Needed;
    SamePaths(s0, sh, r, p * 4096);
    NextNeeded(s0, r, ps, p);
    KeysTwice(s0.at.Keys, Places(s0, r, ps), PathPlaces(s0, r, p * 4096));
  }

  /** What has been paid for fitted. */
  lemma SpentFitted(v0: Vm, s0: Shape, vm: Vm, sh: Shape, r: Frame, ps: seq<nat>, data: nat)
    requires Spent(v0, s0, vm, sh, r, ps, data)
    ensures Room(v0, s0, r, ps, data)
  {
    hide FreeSet, Places, Needed;
  }

  /** A list fits only if every part from its beginning does. */
  lemma {:induction false} PrefixFits(v0: Vm, s0: Shape, r: Frame, ps: seq<nat>, qs: seq<nat>, data: nat, more: nat)
    requires Room(v0, s0, r, ps + qs, more) && data <= more
    ensures Room(v0, s0, r, ps, data)
    decreases |qs|
  {
    hide FreeSet, Places, Needed;
    if qs == [] {
      assert ps + qs == ps;
    } else {
      var init := qs[..|qs| - 1];
      assert ps + qs == (ps + init) + [qs[|qs| - 1]];
      NextNeeded(s0, r, ps + init, qs[|qs| - 1]);
      PrefixFits(v0, s0, r, ps, init, data, more);
    }
  }

  /** A mapping that succeeded, in these terms. */
  lemma MappedSpent(vm: Vm, sh: Shape, vn: Vm, sn: Shape, r: Frame, p: nat)
    requires Grown(vm, vn, sh, sn) && Paid(vm, vn, sh, sn) && AddedWithin(sh, sn, PathPlaces(sh, r, p * 4096))
    requires PathPlaces(sh, r, p * 4096) <= sn.at.Keys
    ensures OneSpent(vm, sh, vn, sn, r, p, 0)
  {
    hide PathPlaces, FreeSet;
    var k, b := sh.at.Keys, PathPlaces(sh, r, p * 4096);
    assert sn.at.Keys == k + b;
    assert k + b == k + (b - k);
  }

  /** A page that is taken first is one page more. */
  lemma TakenSpent(vm: Vm, v1: Vm, sh: Shape, vn: Vm, sn: Shape, r: Frame, p: nat)
    requires |FreeSet(v1.used)| + 1 == |FreeSet(vm.used)| && OneSpent(v1, sh, vn, sn, r, p, 0)
    ensures OneSpent(vm, sh, vn, sn, r, p, 1)
  {
    hide PathPlaces, FreeSet;
  }

  /** When MapPageInto succeeds on a page that no huge page covers. */
  lemma FitsExactly(vm: Vm, sh: Shape, r: Frame, p: nat)
    requires Wf(vm, sh) && sh.Root(r) && !CoveredByHugePage(vm.mem, r, p * 4096)
    ensures OneFits(vm, sh, r, p, 0) <==> Missing(vm.mem, r, p * 4096) <= |FreeSet(vm.used)|
  {
    hide Wf, PathPlaces, FreeSet, Missing, CoveredByHugePage;
    MissingPlaces(vm, sh, r, p * 4096);
  }

  // ---- Pages that keep their views ---------------------------------------------------------------

  /** Every page of every space, other than those listed, looks as before. */
  ghost predicate Kept(vm: Vm, vn: Vm, sh: Shape, done: set<(Frame, nat)>) {
    forall s: Frame, q: nat | sh.Root(s) && q < 0x10_0000_0000 && (s, q) !in done ::
      Lookup(vn.mem, s, q * 4096) == Lookup(vm.mem, s, q * 4096)
  }

  lemma KeptAll(vm: Vm, vn: Vm, sh: Shape, done: set<(Frame, nat)>)
    requires SameViews(vm, vn, sh)
    ensures Kept(vm, vn, sh, done)
  {
    hide Lookup;
  }

  lemma KeptTwice(v0: Vm, v1: Vm, v2: Vm, sh: Shape, sn: Shape, a: set<(Frame, nat)>, b: set<(Frame, nat)>,
                  all: set<(Frame, nat)>)
    requires Kept(v0, v1, sh, a) && Kept(v1, v2, sn, b) && a <= all && b <= all
    requires sn.k == sh.k && sn.copied == sh.copied
    ensures Kept(v0, v2, sh, all)
  {
    hide Lookup;
  }

  lemma SameRoots(vm: Vm, vn: Vm, sh: Shape, sn: Shape, done: set<(Frame, nat)>)
    requires Kept(vm, vn, sh, done) && sn.k == sh.k && sn.copied == sh.copied
    ensures Kept(vm, vn, sn, done)
  {
    hide Lookup;
  }

  // ---- Pages of their own, one after the other ---------------------------------------------------

  /** Page `p` was mapped, or not, and nothing else changed. */
  ghost predicate Charged(v0: Vm, s0: Shape, vm: Vm, sh: Shape, r: Frame, p: nat, data: nat, ok: bool) {
    && (ok <==> OneFits(v0, s0, r, p, data))
    && (ok ==> OneSpent(v0, s0, vm, sh, r, p, data))
    && Kept(v0, vm, sh, if ok then {(r, p)} else {})
  }

  ghost function ListPages(r: Frame, ps: seq<nat>): set<(Frame, nat)> { set p | p in ps :: (r, p) }

  /** A list of pages has been mapped, each to a page taken for it. */
  ghost predicate Mapped(v0: Vm, s0: Shape, vm: Vm, sh: Shape, r: Frame, ps: seq<nat>) {
    Spent(v0, s0, vm, sh, r, ps, |ps|) && Kept(v0, vm, sh, ListPages(r, ps))
  }

  /** The list did not fit, and only its pages changed. */
  ghost predicate Stuck(v0: Vm, s0: Shape, vm: Vm, sh: Shape, r: Frame, ps: seq<nat>) {
    !Room(v0, s0, r, ps, |ps|) && Kept(v0, vm, sh, ListPages(r, ps))
  }

  lemma NothingMapped(vm: Vm, sh: Shape, r: Frame)
    ensures Mapped(vm, sh, vm, sh, r, [])
  {
    hide Spent, Lookup;
    NothingSpent(vm, sh, r);
  }

  lemma MappedNext(v0: Vm, s0: Shape, vm: Vm, sh: Shape, vn: Vm, sn: Shape, r: Frame, ps: seq<nat>, p: nat, ok: bool)
    requires Mapped(v0, s0, vm, sh, r, ps) && Charged(vm, sh, vn, sn, r, p, 1, ok)
    requires sn.k == sh.k && sn.copied == sh.copied
    ensures if ok then Mapped(v0, s0, vn, sn, r, ps + [p]) else Stuck(v0, s0, vn, sn, r, ps + [p])
  {
    hide OneFits, OneSpent, Spent, Kept, Room;
    NextFits(v0, s0, vm, sh, r, ps, |ps|, p, 1);
    KeptTwice(v0, vm, vn, sh, sn, ListPages(r, ps), if ok then {(r, p)} else {}, ListPages(r, ps + [p]));
    SameRoots(v0, vn, sh, sn, ListPages(r, ps + [p]));
    if ok { NextSpent(v0, s0, vm, sh, vn, sn, r, ps, |ps|, p, 1); }
  }

  /** What is stuck stays stuck whatever else was to come. */
  lemma StuckLonger(v0: Vm, s0: Shape, vm: Vm, sh: Shape, r: Frame, ps: seq<nat>, qs: seq<nat>)
    requires Stuck(v0, s0, vm, sh, r, ps)
    ensures Stuck(v0, s0, vm, sh, r, ps + qs)
  {
    hide Room, Lookup;
    if Room(v0, s0, r, ps + qs, |ps + qs|) { PrefixFits(v0, s0, r, ps, qs, |ps|, |ps + qs|); }
    assert forall p | p in ps :: p in ps + qs;
  }

  lemma MappedFitted(v0: Vm, s0: Shape, vm: Vm, sh: Shape, r: Frame, ps: seq<nat>)
    requires Mapped(v0, s0, vm, sh, r, ps)
    ensures Room(v0, s0, r, ps, |ps|)
  {
    hide Spent, Room, Kept;
    SpentFitted(v0, s0, vm, sh, r, ps, |ps|);
  }
}
