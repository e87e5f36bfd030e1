/** The lock-free publication of a 64-bit time in three 32-bit fields of the shared user page
    (kernel/core/shareduserdata.cpp).  The writer stores High2, Low and High1; a reader loads High1,
    Low and High2 and retries while the two high parts differ. */
module SystemTime {

  const TWO32: nat := 0x1_0000_0000
  const TWO64: nat := 0x1_0000_0000_0000_0000

  /** The unsigned upper half, and the same bits as a signed field. */
  function Upper(v: nat): nat { v / TWO32 }
  function AsI32(x: nat): int { if x % TWO32 >= 0x8000_0000 then x % TWO32 - TWO32 else x % TWO32 }
  function High(v: nat): int { AsI32(Upper(v)) }
  function Low(v: nat): nat { v % TWO32 }

  /** The two halves of a value. */
  ghost predicate Pair(v: nat, h: int, l: nat) { High(v) == h && Low(v) == l }

  /** A pair of halves stands for one value only. */
  lemma HalvesAreTheValue(v: nat, w: nat)
    requires v < TWO64 && w < TWO64 && High(v) == High(w) && Low(v) == Low(w)
    ensures v == w
  {
    UpperIsSmall(v);
    UpperIsSmall(w);
  }

  lemma UpperIsSmall(v: nat)
    requires v < TWO64
    ensures Upper(v) < TWO32 && v == Upper(v) * TWO32 + Low(v)
  {}

  lemma HighIsSigned(v: nat)
    requires v < TWO64
    ensures -0x8000_0000 <= High(v) < 0x8000_0000 && High(v) % 0x1_0000_0000 == Upper(v)
  {
    UpperIsSmall(v);
  }

  lemma HighIsUpper(v: nat, w: nat)
    requires v < TWO64 && w < TWO64
    ensures High(v) == High(w) <==> Upper(v) == Upper(w)
  {
    UpperIsSmall(v);
    UpperIsSmall(w);
  }

  lemma UpperIsMonotone(v: nat, w: nat)
    requires v <= w
    ensures Upper(v) <= Upper(w)
  {}

  // ---- The protocol ------------------------------------------------------------------------

  datatype Fields = Fields(high1: int, low: nat, high2: int)

  /** How far the current write is; `v` is the value being written. */
  datatype Writer = Between | StoredHigh2(v: nat) | StoredLow(v: nat)

  /** What the reader has loaded; `floor` is the last value completely written when it began, and
      `seen` the value whose lower half it loaded. */
  datatype Reader =
    | NotStarted
    | LoadedHigh1(h1: int, floor: nat)
    | LoadedLow(h1: int, l: nat, floor: nat, seen: nat)
    | Loaded(h1: int, l: nat, h2: int, floor: nat, seen: nat)

  /** `published` lists the values whose writes have begun, `lowStored` is the last of them whose
      lower half was stored, and `complete` the last whose write has ended. */
  datatype State = State(fields: Fields, writer: Writer, reader: Reader,
                         published: seq<nat>, lowStored: nat, complete: nat)

  datatype Event = Begin(v: nat) | StoreLow | StoreHigh1 | LoadHigh1 | LoadLow | LoadHigh2 | Restart

  ghost predicate Enabled(s: State, e: Event) {
    match e
    case Begin(v) => s.writer.Between? && v < TWO64 && s.published != [] && s.published[|s.published| - 1] <= v
    case StoreLow => s.writer.StoredHigh2?
    case StoreHigh1 => s.writer.StoredLow?
    case LoadHigh1 => s.reader.NotStarted?
    case LoadLow => s.reader.LoadedHigh1?
    case LoadHigh2 => s.reader.LoadedLow?
    case Restart => s.reader.Loaded?
  }

  ghost function Step(s: State, e: Event): State
    requires Enabled(s, e)
  {
    match e
    case Begin(v) =>
      s.(fields := s.fields.(high2 := High(v)), writer := StoredHigh2(v), published := s.published + [v])
    case StoreLow =>
      s.(fields := s.fields.(low := Low(s.writer.v)), writer := StoredLow(s.writer.v), lowStored := s.writer.v)
    case StoreHigh1 =>
      s.(fields := s.fields.(high1 := High(s.writer.v)), writer := Between, complete := s.writer.v)
    case LoadHigh1 => s.(reader := LoadedHigh1(s.fields.high1, s.complete))
    case LoadLow => s.(reader := LoadedLow(s.reader.h1, s.fields.low, s.reader.floor, s.lowStored))
    case LoadHigh2 =>
      s.(reader := Loaded(s.reader.h1, s.reader.l, s.fields.high2, s.reader.floor, s.reader.seen))
    case Restart => s.(reader := NotStarted)
  }

  ghost predicate EnabledAll(s: State, es: seq<Event>)
    decreases |es|
  {
    es == [] || (Enabled(s, es[0]) && EnabledAll(Step(s, es[0]), es[1..]))
  }

  ghost function Run(s: State, es: seq<Event>): State
    requires EnabledAll(s, es)
    decreases |es|
  {
    if es == [] then s else Run(Step(s, es[0]), es[1..])
  }

  /** The page when one value has been written and nobody reads. */
  ghost function Start(v: nat): State {
    State(Fields(High(v), Low(v), High(v)), Between, NotStarted, [v], v, v)
  }

  // ---- Invariant -----------------------------------------------------------------------------

  ghost predicate Ascending(vs: seq<nat>) { forall i, j | 0 <= i <= j < |vs| :: vs[i] <= vs[j] }

  ghost predicate WriterOk(s: State) {
    && s.published != [] && Ascending(s.published) && (forall v | v in s.published :: v < TWO64)
    && s.lowStored in s.published && s.complete in s.published
    && s.complete <= s.lowStored <= s.published[|s.published| - 1]
    && s.fields == Fields(High(s.complete), Low(s.lowStored), High(s.published[|s.published| - 1]))
    && match s.writer
       case Between => s.complete == s.lowStored == s.published[|s.published| - 1]
       case StoredHigh2(v) => v == s.published[|s.published| - 1]
       case StoredLow(v) => v == s.published[|s.published| - 1] == s.lowStored
  }

  /** What was loaded is ordered in time: the floor, then the value seen, then the value whose upper
      half was loaded last. */
  ghost predicate ReaderOk(s: State) {
    match s.reader
    case NotStarted => true
    case LoadedHigh1(h1, floor) => floor < TWO64 && h1 == High(floor) && floor <= s.complete
    case LoadedLow(h1, l, floor, seen) =>
      floor < TWO64 && h1 == High(floor) && floor <= seen && seen in s.published && seen <= s.lowStored
        && l == Low(seen)
    case Loaded(h1, l, h2, floor, seen) =>
      floor < TWO64 && h1 == High(floor) && floor <= seen && seen in s.published && l == Low(seen)
      && (h1 == h2 ==> High(seen) == h1)
  }

  lemma LastIsLargest(vs: seq<nat>, v: nat)
    requires Ascending(vs) && v in vs
    ensures v <= vs[|vs| - 1]
  {}

  lemma StepKeeps(s: State, e: Event)
    requires WriterOk(s) && ReaderOk(s) && Enabled(s, e)
    ensures WriterOk(Step(s, e)) && ReaderOk(Step(s, e))
  {
    hide High, Low;
    if e.LoadHigh2? { LoadKeeps(s); }
  }

  /** The upper half loaded last is that of a value not below the value seen; if it equals the upper
      half loaded first, the value seen has it too. */
  lemma LoadKeeps(s: State)
    requires WriterOk(s) && ReaderOk(s) && s.reader.LoadedLow?
    ensures s.reader.h1 == s.fields.high2 ==> High(s.reader.seen) == s.reader.h1
  {
    var last := s.published[|s.published| - 1];
    LastIsLargest(s.published, s.reader.seen);
    assert last in s.published && s.reader.seen < TWO64;
    HighIsUpper(s.reader.floor, last);
    HighIsUpper(s.reader.floor, s.reader.seen);
    UpperIsMonotone(s.reader.floor, s.reader.seen);
    UpperIsMonotone(s.reader.seen, last);
  }

  lemma {:induction false} RunKeeps(s: State, es: seq<Event>)
    requires WriterOk(s) && ReaderOk(s) && EnabledAll(s, es)
    ensures WriterOk(Run(s, es)) && ReaderOk(Run(s, es))
    decreases |es|
  {
    if es != [] {
      StepKeeps(s, es[0]);
      RunKeeps(Step(s, es[0]), es[1..]);
    }
  }

  /** In every interleaving of writes of ascending values with a reader, equal upper halves mean that
      the pair read stands for one value only, that this value was published, and that it is no older
      than the last value completely written when the read began. */
  lemma EqualHighsAreAPublishedValue(v0: nat, es: seq<Event>)
    requires v0 < TWO64 && EnabledAll(Start(v0), es) && Run(Start(v0), es).reader.Loaded?
    ensures var s := Run(Start(v0), es);
      s.reader.h1 == s.reader.h2 ==>
        (exists v :: v in s.published && s.reader.floor <= v && Pair(v, s.reader.h1, s.reader.l)
                     && forall w: nat | w < TWO64 && Pair(w, s.reader.h1, s.reader.l) :: w == v)
  {
    RunKeeps(Start(v0), es);
    var s := Run(Start(v0), es);
    if s.reader.h1 == s.reader.h2 {
      var v := s.reader.seen;
      forall w: nat | w < TWO64 && Pair(w, s.reader.h1, s.reader.l) ensures w == v { HalvesAreTheValue(v, w); }
      assert v in s.published && s.reader.floor <= v && Pair(v, s.reader.h1, s.reader.l);
    }
  }

  function TornRun(): seq<Event> { [LoadHigh1, Begin(TWO32), StoreLow, LoadLow, LoadHigh2] }

  /** The check is needed: one write between the first two loads yields halves of no published
      value, and only the third load tells. */
  lemma TornReadIsDetected()
    ensures EnabledAll(Start(TWO32 - 1), TornRun())
    ensures var s := Run(Start(TWO32 - 1), TornRun());
      && s.reader.Loaded? && s.reader.h1 != s.reader.h2
      && forall v | v in s.published :: !Pair(v, s.reader.h1, s.reader.l)
  {
    var s0 := Start(TWO32 - 1);
    var s1 := Step(s0, LoadHigh1);
    var s2 := Step(s1, Begin(TWO32));
    var s3 := Step(s2, StoreLow);
    var s4 := Step(s3, LoadLow);
    var s5 := Step(s4, LoadHigh2);
    var es := TornRun();
    assert es[1..] == [Begin(TWO32), StoreLow, LoadLow, LoadHigh2];
    assert es[1..][1..] == [StoreLow, LoadLow, LoadHigh2];
    assert es[1..][1..][1..] == [LoadLow, LoadHigh2];
    assert es[1..][1..][1..][1..] == [LoadHigh2];
    assert es[1..][1..][1..][1..][1..] == [];
    assert EnabledAll(s4, [LoadHigh2]) && Run(s4, [LoadHigh2]) == s5;
    assert EnabledAll(s3, [LoadLow, LoadHigh2]) && Run(s3, [LoadLow, LoadHigh2]) == s5;
    assert EnabledAll(s2, [StoreLow, LoadLow, LoadHigh2]) && Run(s2, [StoreLow, LoadLow, LoadHigh2]) == s5;
    assert EnabledAll(s1, es[1..]) && Run(s1, es[1..]) == s5;
    assert EnabledAll(s0, es) && Run(s0, es) == s5;
    assert s5.published == [TWO32 - 1, TWO32];
  }

  // ---- The writer ------------------------------------------------------------------------------

  /** The KSYSTEM_TIME fields of the shared page. */
  class KSystemTime {
    var low: nat
    var high1: int
    var high2: int
    /** What the page has shown, one entry for every store. */
    ghost var shown: seq<Fields>

    constructor ()
      ensures low == 0 && high1 == 0 && high2 == 0 && shown == []
    {
      low, high1, high2, shown := 0, 0, 0, [];
    }

    ghost function Now(): Fields reads this { Fields(high1, low, high2) }

    ghost method Show()
      modifies this`shown
      ensures shown == old(shown) + [Now()]
    {
      shown := shown + [Now()];
    }

    /** WriteSystemTime: the page shows, store by store, the three states of a write in the protocol. */
    method WriteSystemTime(v: nat, ghost s: State)
      requires v < TWO64 && s.fields == Now() && Enabled(s, Begin(v))
      modifies this
      ensures EnabledAll(s, [Begin(v), StoreLow, StoreHigh1]) && EnabledAll(s, [Begin(v), StoreLow])
      ensures shown == old(shown) + [Run(s, [Begin(v)]).fields, Run(s, [Begin(v), StoreLow]).fields,
                                     Run(s, [Begin(v), StoreLow, StoreHigh1]).fields]
      ensures Now() == Fields(High(v), Low(v), High(v))
      ensures low < 0x1_0000_0000 && -0x8000_0000 <= high1 == high2 < 0x8000_0000
      ensures v == high1 % 0x1_0000_0000 * 0x1_0000_0000 + low
    {
      UpperIsSmall(v);
      HighIsSigned(v);
      hide High, Low;
      ghost var s1 := Step(s, Begin(v));
      ghost var s2 := Step(s1, StoreLow);
      ghost var s3 := Step(s2, StoreHigh1);
      WriteRuns(s, v);
      high2 := High(v);
      Show();
      low := Low(v);
      Show();
      high1 := High(v);
      Show();
      assert shown == old(shown) + [s1.fields, s2.fields, s3.fields];
    }
  }

  lemma WriteRuns(s: State, v: nat)
    requires Enabled(s, Begin(v))
    ensures var s1 := Step(s, Begin(v)); var s2 := Step(s1, StoreLow);
      && EnabledAll(s, [Begin(v)]) && Run(s, [Begin(v)]) == s1
      && EnabledAll(s, [Begin(v), StoreLow]) && Run(s, [Begin(v), StoreLow]) == s2
      && EnabledAll(s, [Begin(v), StoreLow, StoreHigh1])
      && Run(s, [Begin(v), StoreLow, StoreHigh1]) == Step(s2, StoreHigh1)
  {
    var s1 := Step(s, Begin(v));
    var s2 := Step(s1, StoreLow);
    var s3 := Step(s2, StoreHigh1);
    assert [Begin(v)][1..] == [] && [StoreLow][1..] == [] && [StoreHigh1][1..] == [];
    assert [Begin(v), StoreLow][1..] == [StoreLow] && [StoreLow, StoreHigh1][1..] == [StoreHigh1];
    assert [Begin(v), StoreLow, StoreHigh1][1..] == [StoreLow, StoreHigh1];
    assert EnabledAll(s1, [StoreLow]) && Run(s1, [StoreLow]) == s2;
    assert EnabledAll(s2, [StoreHigh1]) && Run(s2, [StoreHigh1]) == s3;
    assert EnabledAll(s1, [StoreLow, StoreHigh1]) && Run(s1, [StoreLow, StoreHigh1]) == s3;
  }
}
