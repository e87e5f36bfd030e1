/** What the counts mean, for clients that give back only references they hold. */
module ObjectLaws {
  import opened Wrappers
  import opened ObjectSpec

  /** The objects, and how many references to each one clients hold. */
  datatype Book = Book(st: State, owed: seq<nat>)

  /** Slots that hold an object. */
  function Count(table: seq<Option<Slot>>, o: Id): nat
    decreases |table|
  {
    if table == [] then 0 else
    Count(table[..|table| - 1], o) + if Holds(table[|table| - 1], o) then 1 else 0
  }

  predicate Holds(e: Option<Slot>, o: Id) { e.Some? && e.value.obj == o }

  /** The references that an operation hands to the client or takes back. */
  function Owed(b: Book, op: Op): seq<nat> {
    var (t, r) := Step(b.st, op);
    match op
    case CreateOp(_, _) => b.owed + [1]
    case CreateRawOp(_) => b.owed + [1]
    case ReferenceOp(o) => if Live(b.st, o) && o < |b.owed| then b.owed[o := b.owed[o] + 1] else b.owed
    case DereferenceOp(o) => if o < |b.owed| && b.owed[o] > 0 then b.owed[o := b.owed[o] - 1] else b.owed
    case ByHandleOp(_, _) => Gets(b.owed, r.out)
    case LookupOp(_, _) => Gets(b.owed, r.out)
    case _ => b.owed
  }

  function Gets(owed: seq<nat>, out: Option<nat>): seq<nat> {
    if out.Some? && out.value < |owed| then owed[out.value := owed[out.value] + 1] else owed
  }

  function Turn(b: Book, op: Op): Book { Book(Step(b.st, op).0, Owed(b, op)) }

  /** A client gives back only what it holds, and names live objects only by their own name; names of
      new objects fit the header. */
  predicate Balanced(b: Book, op: Op) {
    match op
    case CreateOp(_, path) => |path| < NAME_SIZE
    case DereferenceOp(o) => o < |b.owed| && b.owed[o] > 0
    case InsertNameOp(o, path) => Live(b.st, o) && path == b.st.objs[o].name
    case _ => true
  }

  ghost predicate ObjectOk(b: Book, o: Id)
    requires o < |b.st.objs| == |b.owed|
  {
    var h := b.st.objs[o];
    && h.handles == Count(b.st.table, o)
    && (h.live ==> h.refs == b.owed[o] + h.handles && h.refs > 0 && h.closed == 0)
    && (!h.live ==>
        b.owed[o] == 0 && h.handles == 0 && h.closed == if h.kind.Some? && h.kind.value.onClose then 1 else 0)
  }

  ghost predicate NameOk(s: State, i: nat)
    requires i < |s.names|
  {
    s.names[i].Some? ==>
      && s.names[i].value.path != "" && Live(s, s.names[i].value.obj)
      && s.names[i].value.path == s.objs[s.names[i].value.obj].name
  }

  /** Handle counts are the slots that hold the object; reference counts are what clients hold plus
      the handles; an object is live as long as that is not zero, and its OnClose has run, once, when
      it is; no handle and no name leads to a dead object. */
  ghost predicate Inv(b: Book) {
    var s := b.st;
    && |s.table| == HANDLES && |s.names| == NAMES && |b.owed| == |s.objs|
    && (forall o | 0 <= o < |s.objs| :: ObjectOk(b, o))
    && (forall i | 0 <= i < HANDLES && s.table[i].Some? :: Live(s, s.table[i].value.obj))
    && (forall i | 0 <= i < NAMES :: NameOk(s, i))
    && (forall i, j | 0 <= i < j < NAMES && s.names[i].Some? && s.names[j].Some? ::
        s.names[i].value.path != s.names[j].value.path)
  }

  // ---- Counting -----------------------------------------------------------------------------

  lemma {:induction false} CountUpdate(table: seq<Option<Slot>>, i: nat, e: Option<Slot>, o: Id)
    requires i < |table|
    ensures Count(table[i := e], o)
      == Count(table, o) - (if Holds(table[i], o) then 1 else 0) + (if Holds(e, o) then 1 else 0)
    decreases |table|
  {
    var n := |table| - 1;
    var now := table[i := e];
    if i < n {
      assert now[..n] == table[..n][i := e];
      CountUpdate(table[..n], i, e, o);
    } else {
      assert now[..n] == table[..n];
    }
  }

  lemma {:induction false} CountNone(table: seq<Option<Slot>>, o: Id)
    ensures Count(table, o) == 0 <==> forall i | 0 <= i < |table| :: !Holds(table[i], o)
    decreases |table|
  {
    if table != [] {
      var n := |table| - 1;
      CountNone(table[..n], o);
      assert forall i | 0 <= i < n :: table[i] == table[..n][i];
    }
  }

  // ---- Parts of the invariant under the pieces of operations ---------------------------------

  /** The parts that speak of the namespace. */
  ghost predicate NamesOk(s: State) {
    && |s.names| == NAMES
    && (forall i | 0 <= i < NAMES :: NameOk(s, i))
    && (forall i, j | 0 <= i < j < NAMES && s.names[i].Some? && s.names[j].Some? ::
        s.names[i].value.path != s.names[j].value.path)
  }

  ghost predicate TableOk(s: State) {
    |s.table| == HANDLES && forall i | 0 <= i < HANDLES && s.table[i].Some? :: Live(s, s.table[i].value.obj)
  }

  ghost predicate CountsOk(b: Book) {
    |b.owed| == |b.st.objs| && forall o | 0 <= o < |b.st.objs| :: ObjectOk(b, o)
  }

  lemma InvParts(b: Book)
    ensures Inv(b) <==> NamesOk(b.st) && TableOk(b.st) && CountsOk(b)
  {
    hide ObjectOk, NameOk;
  }

  lemma RemoveNameKeeps(s: State, path: string)
    requires NamesOk(s)
    ensures NamesOk(RemoveName(s, path)) && RemoveName(s, path).objs == s.objs && RemoveName(s, path).table == s.table
    ensures forall i | 0 <= i < NAMES && RemoveName(s, path).names[i].Some? ::
      RemoveName(s, path).names[i].value.path != path
  {
    var t := RemoveName(s, path);
    forall i | 0 <= i < NAMES ensures NameOk(t, i) { assert NameOk(s, i); }
  }

  /** A change of counts alone leaves names and handles in order. */
  lemma SameLives(s: State, t: State)
    requires t.names == s.names && |t.objs| >= |s.objs|
    requires forall o | 0 <= o < |s.objs| :: t.objs[o].live == s.objs[o].live && t.objs[o].name == s.objs[o].name
    ensures NamesOk(s) ==> NamesOk(t)
    ensures TableOk(s) && t.table == s.table ==> TableOk(t)
  {
    if NamesOk(s) {
      forall i | 0 <= i < NAMES ensures NameOk(t, i) { assert NameOk(s, i); }
    }
  }

  // ---- Every operation keeps the accounts --------------------------------------------------------

  /** Everything is in order, except that object `o` counts one reference that nobody holds. */
  ghost predicate Excess(b: Book, o: Id) {
    && NamesOk(b.st) && TableOk(b.st) && |b.owed| == |b.st.objs|
    && (forall p | 0 <= p < |b.st.objs| && p != o :: ObjectOk(b, p))
    && Live(b.st, o)
    && var h := b.st.objs[o];
       h.handles == Count(b.st.table, o) && h.refs == b.owed[o] + h.handles + 1 && h.closed == 0
  }

  /** Counts of other objects stay when one object changes. */
  lemma OthersOk(b: Book, now: Book, o: Id)
    requires |b.owed| == |b.st.objs| == |now.st.objs| == |now.owed| && now.st.table == b.st.table
    requires forall p | 0 <= p < |b.st.objs| && p != o ::
      now.st.objs[p] == b.st.objs[p] && now.owed[p] == b.owed[p] && ObjectOk(b, p)
    ensures forall p | 0 <= p < |b.st.objs| && p != o :: ObjectOk(now, p)
  {
    hide Count;
  }

  /** Dropping the excess reference restores order: the object lives on, or it dies and nothing leads
      to it any more. */
  lemma DropsReference(b: Book, o: Id)
    requires Excess(b, o)
    ensures Inv(Book(Dereference(b.st, o), b.owed))
  {
    hide Count, Dies;
    var now := Book(Dereference(b.st, o), b.owed);
    var t := SetObj(b.st, o, b.st.objs[o].(refs := b.st.objs[o].refs - 1));
    SameLives(b.st, t);
    if b.st.objs[o].refs > 1 {
      OthersOk(b, now, o);
      InvParts(now);
    } else {
      CountNone(b.st.table, o);
      OthersOk(b, Book(t, b.owed), o);
      DeathKeeps(Book(t, b.owed), o);
    }
  }

  /** An object that nobody holds can die. */
  lemma DeathKeeps(b: Book, o: Id)
    requires NamesOk(b.st) && TableOk(b.st) && |b.owed| == |b.st.objs| && Live(b.st, o) && b.owed[o] == 0
    requires forall p | 0 <= p < |b.st.objs| && p != o :: ObjectOk(b, p)
    requires forall i | 0 <= i < |b.st.table| :: !Holds(b.st.table[i], o)
    requires b.st.objs[o].handles == 0 == Count(b.st.table, o) && b.st.objs[o].closed == 0
    ensures Inv(Book(Dies(b.st, o), b.owed))
  {
    hide Count;
    var s := b.st;
    var now := Book(Dies(s, o), b.owed);
    RemoveNameKeeps(s, s.objs[o].name);
    var t := if s.objs[o].name != "" then RemoveName(s, s.objs[o].name) else s;
    hide RemoveName;
    forall i | 0 <= i < NAMES ensures NameOk(now.st, i) {
      assert NameOk(t, i);
    }
    forall i | 0 <= i < HANDLES && s.table[i].Some? ensures Live(now.st, s.table[i].value.obj) {
      assert !Holds(s.table[i], o);
    }
    OthersOk(b, now, o);
    InvParts(now);
  }

  lemma ReferenceKeeps(b: Book, o: Id)
    requires Inv(b) && Live(b.st, o)
    ensures Inv(Book(Reference(b.st, o), b.owed[o := b.owed[o] + 1]))
  {
    hide Count;
    var now := Book(Reference(b.st, o), b.owed[o := b.owed[o] + 1]);
    SameLives(b.st, now.st);
    InvParts(b);
    OthersOk(b, now, o);
    assert ObjectOk(b, o);
    InvParts(now);
  }

  lemma InsertKeeps(b: Book, o: Id, access: nat)
    requires Inv(b)
    ensures Inv(Book(Insert(b.st, o, access).0, b.owed))
  {
    var s, i := b.st, FirstFree(b.st.table, 0);
    InvParts(b);
    if Live(s, o) && i < |s.table| {
      var now := Book(Insert(s, o, access).0, b.owed);
      SameLives(s, now.st);
      forall p | 0 <= p < |s.objs| ensures ObjectOk(now, p) {
        assert ObjectOk(b, p);
        CountUpdate(s.table, i, Some(Slot(o, access)), p);
      }
      hide Count;
      InvParts(now);
    }
  }

  lemma CloseKeeps(b: Book, h: nat)
    requires Inv(b)
    ensures Inv(Book(Close(b.st, h).0, b.owed))
  {
    var s, e := b.st, SlotOf(b.st, h);
    InvParts(b);
    if e.Some? {
      var i, o := HandleToIndex(h), e.value.obj;
      var t := s.(table := s.table[i := None]);
      var now := Book(SetObj(t, o, t.objs[o].(handles := t.objs[o].handles - 1)), b.owed);
      SameLives(s, now.st);
      forall p | 0 <= p < |s.objs|
        ensures now.st.objs[p].handles == Count(now.st.table, p) && (p != o ==> ObjectOk(now, p))
      {
        assert ObjectOk(b, p);
        CountUpdate(s.table, i, None, p);
      }
      hide Count, Dereference;
      assert ObjectOk(b, o);
      DropsReference(now, o);
    }
  }

  lemma InsertNameKeeps(b: Book, o: Id, path: string)
    requires Inv(b) && Live(b.st, o) && path == b.st.objs[o].name
    ensures Inv(Book(InsertName(b.st, o, path).0, b.owed))
  {
    hide Count;
    InvParts(b);
    var now := Book(InsertName(b.st, o, path).0, b.owed);
    InsertNameNames(b.st, o, path);
    forall p | 0 <= p < |b.st.objs| ensures ObjectOk(now, p) { assert ObjectOk(b, p); }
    InvParts(now);
  }

  lemma InsertNameNames(s: State, o: Id, path: string)
    requires NamesOk(s) && Live(s, o) && path == s.objs[o].name
    ensures NamesOk(InsertName(s, o, path).0)
  {
    var t := InsertName(s, o, path).0;
    forall i | 0 <= i < NAMES ensures NameOk(t, i) { assert NameOk(s, i); }
  }

  /** A new object, before it is named. */
  lemma NewObjectKeeps(b: Book, kind: Option<Kind>, name: string)
    requires Inv(b)
    ensures Inv(Book(b.st.(objs := b.st.objs + [Header(true, kind, 1, 0, name, 0)]), b.owed + [1]))
  {
    hide Count;
    var o, s := |b.st.objs|, b.st;
    var now := Book(s.(objs := s.objs + [Header(true, kind, 1, 0, name, 0)]), b.owed + [1]);
    InvParts(b);
    SameLives(s, now.st);
    forall i | 0 <= i < |s.table| ensures !Holds(s.table[i], o) {
      if s.table[i].Some? { assert Live(s, s.table[i].value.obj); }
    }
    CountNone(s.table, o);
    forall p | 0 <= p < |now.st.objs| ensures ObjectOk(now, p) {
      if p < o { assert ObjectOk(b, p); }
    }
    InvParts(now);
  }

  lemma ByHandleKeeps(b: Book, h: nat, expected: Option<Kind>)
    requires Inv(b)
    ensures Inv(Turn(b, ByHandleOp(h, expected)))
  {
    hide ObjectOk, NameOk, Reference;
    var e := SlotOf(b.st, h);
    if e.Some? && Live(b.st, e.value.obj) { ReferenceKeeps(b, e.value.obj); }
  }

  /** A lookup gives the object of the entry with the path, with one more reference, or changes
      nothing. */
  lemma {:induction false} LookupGives(s: State, path: string, expected: Option<Kind>, i: nat)
    requires i <= |s.names|
    ensures var (t, r) := LookupFrom(s, path, expected, i);
      if r.out.Some? then Live(s, r.out.value) && t == Reference(s, r.out.value) else t == s
    decreases |s.names| - i
  {
    hide Reference;
    if i < |s.names| { LookupGives(s, path, expected, i + 1); }
  }

  lemma LookupKeeps(b: Book, path: string, expected: Option<Kind>)
    requires Inv(b)
    ensures Inv(Turn(b, LookupOp(path, expected)))
  {
    hide ObjectOk, NameOk, Reference, LookupFrom;
    LookupGives(b.st, path, expected, 0);
    var out := LookupFrom(b.st, path, expected, 0).1.out;
    if out.Some? { ReferenceKeeps(b, out.value); }
  }

  lemma RemoveKeeps(b: Book, path: string)
    requires Inv(b)
    ensures Inv(Book(RemoveName(b.st, path), b.owed))
  {
    InvParts(b);
    RemoveNameKeeps(b.st, path);
    hide RemoveName, Count;
    var now := Book(RemoveName(b.st, path), b.owed);
    forall p | 0 <= p < |b.st.objs| ensures ObjectOk(now, p) { assert ObjectOk(b, p); }
    InvParts(now);
  }

  lemma DereferenceKeeps(b: Book, o: Id)
    requires Inv(b) && o < |b.owed| && b.owed[o] > 0
    ensures Inv(Book(Dereference(b.st, o), b.owed[o := b.owed[o] - 1]))
  {
    hide Count, Dereference;
    InvParts(b);
    assert ObjectOk(b, o);
    var less := Book(b.st, b.owed[o := b.owed[o] - 1]);
    OthersOk(b, less, o);
    DropsReference(less, o);
  }

  lemma CreateKeeps(b: Book, kind: Kind, path: string)
    requires Inv(b) && |path| < NAME_SIZE
    ensures Inv(Book(Create(b.st, kind, path).0, b.owed + [1]))
  {
    hide ObjectOk, NameOk, InsertName;
    var made := Book(b.st.(objs := b.st.objs + [Header(true, Some(kind), 1, 0, path, 0)]), b.owed + [1]);
    NewObjectKeeps(b, Some(kind), path);
    if path != "" { InsertNameKeeps(made, |b.st.objs|, path); }
  }

  /** Every balanced call keeps the accounts. */
  lemma TurnKeeps(b: Book, op: Op)
    requires Inv(b) && Balanced(b, op)
    ensures Inv(Turn(b, op))
  {
    hide Inv, Create, Reference, Dereference, Insert, Close, ByHandle, InsertName, RemoveName, LookupFrom;
    match op
    case CreateOp(kind, path) => CreateKeeps(b, kind, path);
    case CreateRawOp(path) => NewObjectKeeps(b, None, Cut(path, NAME_SIZE));
    case ReferenceOp(o) => if Live(b.st, o) { OwedSize(b); ReferenceKeeps(b, o); } else { DeadReference(b.st, o); }
    case DereferenceOp(o) => DereferenceKeeps(b, o);
    case InsertOp(o, access) => InsertKeeps(b, o, access);
    case CloseOp(h) => CloseKeeps(b, h);
    case ByHandleOp(h, expected) => ByHandleKeeps(b, h, expected);
    case InsertNameOp(o, path) => InsertNameKeeps(b, o, path);
    case RemoveNameOp(path) => RemoveKeeps(b, path);
    case LookupOp(path, expected) => LookupKeeps(b, path, expected);
  }

  lemma OwedSize(b: Book)
    requires Inv(b)
    ensures |b.owed| == |b.st.objs|
  {}

  lemma DeadReference(s: State, o: Id)
    requires !Live(s, o)
    ensures Reference(s, o) == s
  {}

  // ---- Runs -----------------------------------------------------------------------------------

  function Empty<T>(n: nat): (s: seq<Option<T>>)
    ensures |s| == n && forall i | 0 <= i < n :: s[i] == None
  {
    seq(n, _ => None)
  }

  /** Init: no objects, no handles, no names. */
  function Start(): Book { Book(State([], Empty(HANDLES), Empty(NAMES)), []) }

  lemma StartIsConsistent()
    ensures Inv(Start())
  {}

  function Run(b: Book, ops: seq<Op>): Book
    decreases |ops|
  {
    if ops == [] then b else Run(Turn(b, ops[0]), ops[1..])
  }

  predicate BalancedRun(b: Book, ops: seq<Op>)
    decreases |ops|
  {
    ops == [] || (Balanced(b, ops[0]) && BalancedRun(Turn(b, ops[0]), ops[1..]))
  }

  lemma {:induction false} RunKeeps(b: Book, ops: seq<Op>)
    requires Inv(b) && BalancedRun(b, ops)
    ensures Inv(Run(b, ops))
    decreases |ops|
  {
    hide Inv, Turn, Balanced;
    if ops != [] {
      TurnKeeps(b, ops[0]);
      RunKeeps(Turn(b, ops[0]), ops[1..]);
    }
  }

  /** After any balanced run from the start: handle counts are slots, reference counts are slots plus
      what clients hold, and an object's OnClose has run, exactly once, if and only if nobody holds the
      object any more. */
  lemma RunAccounts(ops: seq<Op>, o: Id)
    requires BalancedRun(Start(), ops) && o < |Run(Start(), ops).st.objs|
    ensures var b := Run(Start(), ops); var h, slots := b.st.objs[o], Count(b.st.table, o);
      && |b.owed| == |b.st.objs| && h.handles == slots
      && (h.live ==> h.refs == b.owed[o] + slots)
      && (h.live <==> b.owed[o] + slots > 0)
      && h.closed == if b.owed[o] + slots == 0 && h.kind.Some? && h.kind.value.onClose then 1 else 0
  {
    hide Start, Run, Count, BalancedRun;
    StartIsConsistent();
    RunKeeps(Start(), ops);
    var b := Run(Start(), ops);
    assert ObjectOk(b, o);
  }

  /** After any balanced run, no handle and no name leads to a dead object. */
  lemma RunNeverDangles(ops: seq<Op>)
    requires BalancedRun(Start(), ops)
    ensures var s := Run(Start(), ops).st;
      && (forall h | SlotOf(s, h).Some? :: Live(s, SlotOf(s, h).value.obj))
      && (forall i | 0 <= i < |s.names| && s.names[i].Some? :: Live(s, s.names[i].value.obj))
  {
    hide Start, Run, Count, BalancedRun, ObjectOk;
    StartIsConsistent();
    RunKeeps(Start(), ops);
    var s := Run(Start(), ops).st;
    forall i | 0 <= i < |s.names| && s.names[i].Some? ensures Live(s, s.names[i].value.obj) { assert NameOk(s, i); }
  }

  // ---- Handles and names over runs ---------------------------------------------------------------

  /** A slot keeps its object until its own handle is closed. */
  lemma TurnKeepsHandle(b: Book, op: Op, h: nat)
    requires Inv(b) && SlotOf(b.st, h).Some? && op != CloseOp(h)
    ensures SlotOf(Turn(b, op).st, h) == SlotOf(b.st, h)
  {
    hide Inv, FirstNamed, Live, Owed;
    if op.LookupOp? { LookupGives(b.st, op.path, op.expected, 0); }
    if op.CloseOp? {
      HandleCodec(h, 0);
      HandleCodec(op.handle, 0);
    }
    hide LookupFrom, HandleValid, IndexToHandle;
  }

  /** As long as a handle is not closed, it leads to its object, and the object lives: whatever else
      balanced clients do, its OnClose does not run. */
  lemma {:induction false} OpenHandleKeeps(b: Book, ops: seq<Op>, h: nat)
    requires Inv(b) && BalancedRun(b, ops) && SlotOf(b.st, h).Some? && CloseOp(h) !in ops
    ensures var s := Run(b, ops).st; SlotOf(s, h) == SlotOf(b.st, h) && Live(s, SlotOf(s, h).value.obj)
    ensures var s := Run(b, ops).st; s.objs[SlotOf(s, h).value.obj].closed == 0
    decreases |ops|
  {
    hide Turn, Balanced, ObjectOk, NameOk;
    if ops != [] {
      TurnKeeps(b, ops[0]);
      TurnKeepsHandle(b, ops[0], h);
      OpenHandleKeeps(Turn(b, ops[0]), ops[1..], h);
    } else {
      LiveNotClosed(b, SlotOf(b.st, h).value.obj);
    }
  }

  lemma LiveNotClosed(b: Book, o: Id)
    requires Inv(b) && Live(b.st, o)
    ensures b.st.objs[o].closed == 0
  {
    assert ObjectOk(b, o);
  }

  /** Allocating an object keeps the namespace in order exactly if its path fits the header or is not
      inserted: a longer one is cut in the header, and no one will remove its entry. */
  lemma CreateExact(b: Book, kind: Kind, path: string)
    requires Inv(b)
    ensures var s := b.st.(objs := b.st.objs + [Header(true, Some(kind), 1, 0, Cut(path, NAME_SIZE), 0)]);
      NamesOk(Create(b.st, kind, path).0)
      <==> |path| < NAME_SIZE || InsertName(s, |b.st.objs|, path).1.status != Success
  {
    hide Count;
    var o := |b.st.objs|;
    var s := b.st.(objs := b.st.objs + [Header(true, Some(kind), 1, 0, Cut(path, NAME_SIZE), 0)]);
    NewObjectKeeps(b, Some(kind), Cut(path, NAME_SIZE));
    InvParts(b);
    SameLives(b.st, s);
    if path != "" && InsertName(s, o, path).1.status == Success {
      var i := FirstFree(s.names, 0);
      assert Create(b.st, kind, path).0.names[i] == Some(Named(path, o));
      if |path| < NAME_SIZE {
        InsertNameNames(s, o, path);
      } else {
        assert |Cut(path, NAME_SIZE)| < |path|;
        assert !NameOk(Create(b.st, kind, path).0, i);
      }
    }
  }

  /** A path of 64 characters or more: after the object is given back, its entry leads to a dead
      object. */
  lemma LongNameDangles(path: string)
    requires NAME_SIZE <= |path| < PATH_SIZE && path[0] == '\\'
    ensures var made := Create(Start().st, Kind(1, true), path).0; var gone := Dereference(made, 0);
      gone.names[0] == Some(Named(path, 0)) && |gone.objs| == 1 && !Live(gone, 0)
  {
    var name := Cut(path, NAME_SIZE);
    var s := State([Header(true, Some(Kind(1, true)), 1, 0, name, 0)], Empty(HANDLES), Empty(NAMES));
    hide Empty, Cut;
    OnlyName(path, name);
    assert Create(Start().st, Kind(1, true), path).0 == InsertName(s, 0, path).0;
    assert InsertName(s, 0, path).0.names == Empty(NAMES)[0 := Some(Named(path, 0))];
    CutDiffers(path);
  }

  lemma CutDiffers(path: string)
    requires |path| >= NAME_SIZE
    ensures Cut(path, NAME_SIZE) != path && Cut(path, NAME_SIZE) != ""
  {}

  lemma OnlyName(path: string, other: string)
    ensures FirstFree(Empty<Named>(NAMES), 0) == 0 && FirstNamed(Empty(NAMES), path, 0) == NAMES
    ensures other != path ==> FirstNamed(Empty(NAMES)[0 := Some(Named(path, 0))], other, 0) == NAMES
  {}

  /** Two objects can have one name in their headers although only the first was inserted; the end of
      the second then takes the first one's entry away. */
  lemma DeathTakesName(s: State, o: Id, i: nat)
    requires NamesOk(s) && Live(s, o) && s.objs[o].refs == 1 && i < NAMES && s.names[i].Some?
    ensures Dereference(s, o).names[i] == if s.names[i].value.path == s.objs[o].name then None else s.names[i]
  {
    assert NameOk(s, i);
    var t := SetObj(s, o, s.objs[o].(refs := 0));
    RemoveNameExact(t.names, s.objs[o].name, i);
  }

  lemma RemoveNameExact(names: seq<Option<Named>>, path: string, i: nat)
    requires i < |names| && names[i].Some?
    requires forall i, j | 0 <= i < j < |names| && names[i].Some? && names[j].Some? ::
      names[i].value.path != names[j].value.path
    ensures names[i].value.path == path ==> FirstNamed(names, path, 0) == i
    ensures names[i].value.path != path ==> FirstNamed(names, path, 0) != i
  {}
}
