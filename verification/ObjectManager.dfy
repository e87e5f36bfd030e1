/** The object manager, working in place on object headers, the handle table and the namespace. */
module ObjectManager {
  import opened Wrappers
  import opened ObjectSpec

  const MAGIC: nat := 0x4E54_4F42

  /** The header in front of an object's body.  Its number stands for its address. */
  class ObjectHeader {
    ghost const id: Id
    var magic: nat
    var kind: Option<Kind>
    var refCount: int
    var handleCount: int
    var name: string
    ghost var closed: nat   // calls of OnClose so far

    ghost function Value(): Header
      reads this
    {
      Header(magic == MAGIC, kind, refCount, handleCount, name, closed)
    }

    constructor (ghost id: Id, kind: Option<Kind>, name: string)
      ensures this.id == id && Value() == Header(true, kind, 1, 0, name, 0)
    {
      this.id := id;
      magic, this.kind, refCount, handleCount, this.name, closed := MAGIC, kind, 1, 0, name, 0;
    }
  }

  datatype HandleEntry = HandleEntry(target: ObjectHeader?, access: nat)
  datatype NamespaceEntry = NamespaceEntry(path: string, target: ObjectHeader?)

  ghost function SlotValue(e: HandleEntry): Option<Slot> {
    if e.target == null then None else Some(Slot(e.target.id, e.access))
  }

  ghost function NameValue(e: NamespaceEntry): Option<Named> {
    if e.target == null then None else Some(Named(e.path, e.target.id))
  }

  ghost function Values(pool: seq<ObjectHeader>): (objs: seq<Header>)
    reads pool
    ensures |objs| == |pool| && forall i | 0 <= i < |pool| :: objs[i] == pool[i].Value()
  {
    seq(|pool|, i requires 0 <= i < |pool| reads pool => pool[i].Value())
  }

  ghost function SlotValues(entries: seq<HandleEntry>): (table: seq<Option<Slot>>)
    ensures |table| == |entries| && forall i | 0 <= i < |entries| :: table[i] == SlotValue(entries[i])
  {
    seq(|entries|, i requires 0 <= i < |entries| => SlotValue(entries[i]))
  }

  ghost function NameValues(entries: seq<NamespaceEntry>): (names: seq<Option<Named>>)
    ensures |names| == |entries| && forall i | 0 <= i < |entries| :: names[i] == NameValue(entries[i])
  {
    seq(|entries|, i requires 0 <= i < |entries| => NameValue(entries[i]))
  }

  class Manager {
    const handles: array<HandleEntry>
    const names: array<NamespaceEntry>
    ghost var pool: seq<ObjectHeader>   // every object allocated so far: the heap frees nothing

    ghost predicate Valid()
      reads this, handles, names
    {
      && handles.Length == HANDLES && names.Length == NAMES
      && (forall i | 0 <= i < |pool| :: pool[i].id == i)
      && (forall i | 0 <= i < HANDLES && handles[i].target != null :: handles[i].target in pool)
      && (forall i | 0 <= i < NAMES && names[i].target != null :: names[i].target in pool)
    }

    ghost function Now(): State
      reads this, handles, names, pool
    {
      State(Values(pool), SlotValues(handles[..]), NameValues(names[..]))
    }

    /** Init. */
    constructor ()
      ensures Valid() && fresh(handles) && fresh(names) && pool == []
      ensures Now() == State([], seq(HANDLES, _ => None), seq(NAMES, _ => None))
    {
      handles := new HandleEntry[HANDLES](_ => HandleEntry(null, 0));
      names := new NamespaceEntry[NAMES](_ => NamespaceEntry("", null));
      pool := [];
      new;
      assert SlotValues(handles[..]) == seq(HANDLES, _ => None);
      assert NameValues(names[..]) == seq(NAMES, _ => None);
    }

    ghost predicate Has(o: ObjectHeader)
      reads this
    {
      o.id < |pool| && pool[o.id] == o
    }

    lemma HasIff(o: ObjectHeader)
      requires Valid()
      ensures Has(o) <==> o in pool
    {}

    // ---- Headers --------------------------------------------------------------------------

    /** The state after one header changed. */
    twostate lemma HeaderChanged(o: ObjectHeader)
      requires old(Valid()) && old(Has(o)) && unchanged(this) && unchanged(handles) && unchanged(names)
      requires forall p | p in pool && p != o :: unchanged(p)
      ensures Valid() && Now() == SetObj(old(Now()), o.id, o.Value())
    {
      forall i | 0 <= i < |pool| && i != o.id ensures pool[i].Value() == old(pool[i].Value()) {
        assert pool[i] in pool && pool[i].id == i;
      }
      assert Values(pool) == old(Values(pool))[o.id := o.Value()];
    }

    /** ReferenceObject. */
    method ReferenceObject(o: ObjectHeader)
      requires Valid() && Has(o)
      modifies o`refCount
      ensures Valid() && Now() == Reference(old(Now()), o.id)
    {
      if o.magic != MAGIC { return; }
      o.refCount := o.refCount + 1;
      HeaderChanged(o);
    }

    /** RemoveObjectByName. */
    method RemoveObjectByName(path: string)
      requires Valid()
      modifies names
      ensures Valid() && Now() == RemoveName(old(Now()), path)
    {
      ghost var before := NameValues(names[..]);
      var i := 0;
      while i < NAMES
        invariant 0 <= i <= NAMES && Valid() && names[..] == old(names[..])
        invariant forall j | 0 <= j < i :: before[j].None? || before[j].value.path != path
      {
        if names[i].target != null && names[i].path == path {
          names[i] := NamespaceEntry("", null);
          assert NameValues(names[..]) == before[i := None];
          return;
        }
        i := i + 1;
      }
    }

    /** The end of an object. */
    method Destroy(o: ObjectHeader)
      requires Valid() && Has(o)
      modifies names, o
      ensures Valid() && Now() == Dies(old(Now()), o.id)
    {
      hide RemoveName;
      if o.name != "" { RemoveObjectByName(o.name); }
      label L:
      if o.kind.Some? && o.kind.value.onClose { o.closed := o.closed + 1; }
      o.magic := 0;
      HeaderChanged@L(o);
    }

    /** DereferenceObject. */
    method DereferenceObject(o: ObjectHeader)
      requires Valid() && Has(o)
      modifies names, o
      ensures Valid() && Now() == Dereference(old(Now()), o.id)
    {
      hide Dies;
      if o.magic != MAGIC { return; }
      o.refCount := o.refCount - 1;
      HeaderChanged(o);
      if o.refCount <= 0 { Destroy(o); }
    }

    // ---- Objects --------------------------------------------------------------------------

    /** A header on the heap. */
    method NewHeader(kind: Option<Kind>, path: string) returns (o: ObjectHeader)
      requires Valid()
      modifies this`pool
      ensures Valid() && fresh(o) && Has(o) && o.id == old(|pool|)
      ensures Now() == old(Now()).(objs := old(Now()).objs + [Header(true, kind, 1, 0, Cut(path, NAME_SIZE), 0)])
    {
      o := new ObjectHeader(|pool|, kind, Cut(path, NAME_SIZE));
      ghost var was := Values(pool);
      pool := pool + [o];
      assert Values(pool) == was + [o.Value()];
    }

    /** AllocateObject; a path that cannot be inserted is only reported. */
    method AllocateObject(kind: Kind, path: string) returns (o: ObjectHeader)
      requires Valid()
      modifies this`pool, names
      ensures Valid() && fresh(o) && Has(o) && Now() == Create(old(Now()), kind, path).0
    {
      hide InsertName, Cut;
      o := NewHeader(Some(kind), path);
      if path != "" { var st := InsertObjectByName(o, path); }
    }

    // ---- Handles --------------------------------------------------------------------------

    /** HandleTable::Alloc. */
    method AllocHandle(o: ObjectHeader, access: nat) returns (h: nat)
      requires Valid() && Has(o)
      modifies handles
      ensures Valid() && var i := FirstFree(old(Now()).table, 0);
        && h == (if i < HANDLES then IndexToHandle(i) else INVALID_HANDLE)
        && Now() == if i < HANDLES then old(Now()).(table := old(Now()).table[i := Some(Slot(o.id,
            access))]) else old(Now())
    {
      ghost var before := SlotValues(handles[..]);
      var i := 0;
      while i < HANDLES
        invariant 0 <= i <= HANDLES && Valid() && handles[..] == old(handles[..])
        invariant FirstFree(before, 0) == FirstFree(before, i)
      {
        if handles[i].target == null {
          handles[i] := HandleEntry(o, access);
          assert SlotValues(handles[..]) == before[i := Some(Slot(o.id, access))];
          return IndexToHandle(i);
        }
        i := i + 1;
      }
      return INVALID_HANDLE;
    }

    /** HandleTable::Free of an open handle. */
    method FreeHandle(h: nat) returns (st: Status)
      requires Valid()
      modifies handles
      ensures Valid() && st == if SlotOf(old(Now()), h).Some? then Success else InvalidHandle
      ensures Now() == if st
        == Success then old(Now()).(table := old(Now()).table[HandleToIndex(h) := None]) else old(Now())
    {
      if !HandleValid(h) { return InvalidHandle; }
      var i := HandleToIndex(h);
      if handles[i].target == null { return InvalidHandle; }
      ghost var before := SlotValues(handles[..]);
      handles[i] := HandleEntry(null, 0);
      assert SlotValues(handles[..]) == before[i := None];
      return Success;
    }

    /** HandleTable::Lookup. */
    method LookUpHandle(h: nat) returns (o: ObjectHeader?)
      requires Valid()
      ensures o == null <==> SlotOf(Now(), h).None?
      ensures o != null ==> Has(o) && SlotOf(Now(), h).value.obj == o.id
    {
      if !HandleValid(h) { return null; }
      o := handles[HandleToIndex(h)].target;
      if o != null { HasIff(o); }
    }

    /** InsertObject. */
    method InsertObject(o: ObjectHeader, access: nat) returns (st: Status, h: nat)
      requires Valid() && Has(o)
      modifies handles, o
      ensures Valid() && var (t, r) := Insert(old(Now()), o.id, access);
        Now() == t && st == r.status && (r.out.Some? ==> h == r.out.value)
    {
      hide FirstFree;
      h := INVALID_HANDLE;
      if o.magic != MAGIC { return InvalidParameter, h; }
      h := AllocHandle(o, access);
      if h == INVALID_HANDLE { return NoResources, h; }
      label L:
      o.handleCount := o.handleCount + 1;
      o.refCount := o.refCount + 1;
      HeaderChanged@L(o);
      return Success, h;
    }

    /** CloseHandle. */
    method CloseHandle(h: nat) returns (st: Status)
      requires Valid()
      modifies handles, names, pool
      ensures Valid() && Now() == Close(old(Now()), h).0 && st == Close(old(Now()), h).1.status
    {
      hide Dereference, HandleValid, HandleToIndex, Values;
      var o := LookUpHandle(h);
      if o == null { return InvalidHandle; }
      st := FreeHandle(h);
      if st != Success { return; }
      label L:
      if o.magic == MAGIC {
        o.handleCount := o.handleCount - 1;
        HeaderChanged@L(o);
        DereferenceObject(o);
      }
    }

    /** ReferenceObjectByHandle. */
    method ReferenceObjectByHandle(h: nat, expected: Option<Kind>) returns (st: Status, o: ObjectHeader?)
      requires Valid()
      modifies pool
      ensures Valid() && var (t, r) := ByHandle(old(Now()), h, expected);
        Now() == t && st == r.status && (o == null <==> r.out.None?) && (o != null ==> Has(o) && r.out == Some(o.id))
    {
      hide SlotOf;
      o := LookUpHandle(h);
      if o == null || o.magic != MAGIC { return InvalidHandle, null; }
      if expected.Some? && o.kind != expected { return TypeMismatch, null; }
      ReferenceObject(o);
      return Success, o;
    }

    // ---- Namespace ------------------------------------------------------------------------

    /** InsertObjectByName: a scan for the path, then one for a free slot. */
    method InsertObjectByName(o: ObjectHeader, path: string) returns (st: Status)
      requires Valid() && Has(o)
      modifies names
      ensures Valid() && Now() == InsertName(old(Now()), o.id, path).0
      ensures st == InsertName(old(Now()), o.id, path).1.status
    {
      if path == "" || path[0] != '\\' { return InvalidParameter; }
      if |path| >= PATH_SIZE { return InvalidParameter; }
      ghost var before := NameValues(names[..]);
      var i := 0;
      while i < NAMES
        invariant 0 <= i <= NAMES && FirstNamed(before, path, 0) == FirstNamed(before, path, i)
      {
        if names[i].target != null && names[i].path == path { return AlreadyExists; }
        i := i + 1;
      }
      i := 0;
      while i < NAMES
        invariant 0 <= i <= NAMES && Valid() && names[..] == old(names[..])
        invariant FirstFree(before, 0) == FirstFree(before, i)
      {
        if names[i].target == null {
          names[i] := NamespaceEntry(path, o);
          assert NameValues(names[..]) == before[i := Some(Named(path, o.id))];
          return Success;
        }
        i := i + 1;
      }
      return NoResources;
    }

    /** LookupObjectByName. */
    method LookupObjectByName(path: string, expected: Option<Kind>) returns (st: Status, o: ObjectHeader?)
      requires Valid()
      modifies pool
      ensures Valid() && var (t, r) := LookupFrom(old(Now()), path, expected, 0);
        Now() == t && st == r.status && (o == null <==> r.out.None?) && (o != null ==> Has(o) && r.out == Some(o.id))
    {
      hide Reference;
      var i := 0;
      while i < NAMES
        invariant 0 <= i <= NAMES && Valid() && Now() == old(Now()) && pool == old(pool) && names[..] == old(names[..])
        invariant LookupFrom(Now(), path, expected, 0) == LookupFrom(Now(), path, expected, i)
      {
        if names[i].target != null && names[i].path == path {
          o := names[i].target;
          HasIff(o);
          if o.magic == MAGIC {
            if expected.Some? && o.kind != expected { return TypeMismatch, null; }
            ReferenceObject(o);
            return Success, o;
          }
        }
        i := i + 1;
      }
      return NameNotFound, null;
    }
  }
}
