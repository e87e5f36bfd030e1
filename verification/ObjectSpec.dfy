/** The object manager of kernel/ob/object_manager.cpp as a state machine: objects with reference and
    handle counts, the handle table, and the namespace. */
module ObjectSpec {
  import opened Wrappers

  const HANDLES: nat := 256
  const NAMES: nat := 128
  const NAME_SIZE: nat := 64
  const PATH_SIZE: nat := 128
  const INVALID_HANDLE: nat := 0xFFFF_FFFF_FFFF_FFFF

  // ---- The handle codec ---------------------------------------------------------------------

  function IndexToHandle(i: nat): nat { (i + 1) * 8 }

  function HandleToIndex(h: nat): int { h / 8 - 1 }

  predicate HandleValid(h: nat) {
    h != 0 && h != INVALID_HANDLE && h % 8 == 0 && 1 <= h / 8 <= HANDLES
  }

  /** The valid handles are exactly the codes of the table's slots, each of one slot. */
  lemma HandleCodec(h: nat, i: nat)
    ensures HandleValid(h) <==> 0 <= HandleToIndex(h) < HANDLES && h == IndexToHandle(HandleToIndex(h))
    ensures i < HANDLES ==> HandleValid(IndexToHandle(i)) && HandleToIndex(IndexToHandle(i)) == i
  {}

  // ---- State --------------------------------------------------------------------------------

  /** An object's number, in the order of allocation. */
  type Id = nat

  /** A registered type: its index, and whether it has an OnClose. */
  datatype Kind = Kind(index: nat, onClose: bool)

  /** An object header; `live` is the magic number, `closed` counts the calls of OnClose. */
  datatype Header = Header(live: bool, kind: Option<Kind>, refs: int, handles: int, name: string, closed: nat)

  datatype Slot = Slot(obj: Id, access: nat)
  datatype Named = Named(path: string, obj: Id)

  datatype State = State(objs: seq<Header>, table: seq<Option<Slot>>, names: seq<Option<Named>>)

  datatype Status =
    | Success | InvalidParameter | InvalidHandle | NoResources | AlreadyExists | TypeMismatch | NameNotFound

  /** What a call gives back: a status, and the handle or object if there is one. */
  datatype Reply = Reply(status: Status, out: Option<nat>)

  /** The first slot from `i` on that is free; the length if there is none. */
  function FirstFree<T>(s: seq<Option<T>>, i: nat): (r: nat)
    requires i <= |s|
    ensures i <= r <= |s| && (r < |s| ==> s[r].None?) && forall j | i <= j < r :: s[j].Some?
    decreases |s| - i
  {
    if i == |s| || s[i].None? then i else FirstFree(s, i + 1)
  }

  /** The first namespace slot from `i` on with a path; the length if there is none. */
  function FirstNamed(names: seq<Option<Named>>, path: string, i: nat): (r: nat)
    requires i <= |names|
    ensures i <= r <= |names| && (r < |names| ==> names[r].Some? && names[r].value.path == path)
    ensures forall j | i <= j < r :: names[j].None? || names[j].value.path != path
    decreases |names| - i
  {
    if i == |names| || (names[i].Some? && names[i].value.path == path) then i else FirstNamed(names, path, i + 1)
  }

  /** str_copy into a buffer of `max` bytes. */
  function Cut(s: string, max: nat): (r: string)
    requires max > 0
  {
    if |s| < max then s else s[..max - 1]
  }

  // ---- Operations ---------------------------------------------------------------------------

  predicate Live(s: State, o: Id) { o < |s.objs| && s.objs[o].live }

  function SetObj(s: State, o: Id, h: Header): State
    requires o < |s.objs|
  {
    s.(objs := s.objs[o := h])
  }

  /** ReferenceObject: nothing happens to a dead object. */
  function Reference(s: State, o: Id): State {
    if Live(s, o) then SetObj(s, o, s.objs[o].(refs := s.objs[o].refs + 1)) else s
  }

  /** RemoveObjectByName. */
  function RemoveName(s: State, path: string): State {
    var i := FirstNamed(s.names, path, 0);
    if i < |s.names| then s.(names := s.names[i := None]) else s
  }

  /** The end of an object: its name goes, OnClose runs, the magic number is cleared. */
  function Dies(s: State, o: Id): State
    requires o < |s.objs|
  {
    var t := if s.objs[o].name != "" then RemoveName(s, s.objs[o].name) else s;
    var h := s.objs[o];
    var closes := if h.kind.Some? && h.kind.value.onClose then 1 else 0;
    SetObj(t, o, h.(live := false, closed := h.closed + closes))
  }

  /** DereferenceObject. */
  function Dereference(s: State, o: Id): State {
    if !Live(s, o) then s else
    var t := SetObj(s, o, s.objs[o].(refs := s.objs[o].refs - 1));
    if t.objs[o].refs <= 0 then Dies(t, o) else t
  }

  /** InsertObject: a handle for the object. */
  function Insert(s: State, o: Id, access: nat): (State, Reply) {
    if !Live(s, o) then (s, Reply(InvalidParameter, None)) else
    var i := FirstFree(s.table, 0);
    if i == |s.table| then (s, Reply(NoResources, None)) else
    var h := s.objs[o];
    var t := s.(table := s.table[i := Some(Slot(o, access))]);
    (SetObj(t, o, h.(refs := h.refs + 1, handles := h.handles + 1)), Reply(Success, Some(IndexToHandle(i))))
  }

  /** HandleTable::Lookup. */
  function SlotOf(s: State, h: nat): Option<Slot> {
    if HandleValid(h) && HandleToIndex(h) < |s.table| then s.table[HandleToIndex(h)] else None
  }

  /** CloseHandle. */
  function Close(s: State, h: nat): (State, Reply) {
    var e := SlotOf(s, h);
    if e.None? then (s, Reply(InvalidHandle, None)) else
    var t := s.(table := s.table[HandleToIndex(h) := None]);
    var o := e.value.obj;
    if !Live(t, o) then (t, Reply(Success, None)) else
    (Dereference(SetObj(t, o, t.objs[o].(handles := t.objs[o].handles - 1)), o), Reply(Success, None))
  }

  /** ReferenceObjectByHandle. */
  function ByHandle(s: State, h: nat, expected: Option<Kind>): (State, Reply) {
    var e := SlotOf(s, h);
    if e.None? || !Live(s, e.value.obj) then (s, Reply(InvalidHandle, None)) else
    var o := e.value.obj;
    if expected.Some? && s.objs[o].kind != expected then (s, Reply(TypeMismatch, None)) else
    (Reference(s, o), Reply(Success, Some(o)))
  }

  /** InsertObjectByName: the object is not looked at. */
  function InsertName(s: State, o: Id, path: string): (State, Reply) {
    if path == "" || path[0] != '\\' || |path| >= PATH_SIZE then (s, Reply(InvalidParameter, None)) else
    if FirstNamed(s.names, path, 0) < |s.names| then (s, Reply(AlreadyExists, None)) else
    var i := FirstFree(s.names, 0);
    if i == |s.names| then (s, Reply(NoResources, None)) else
    (s.(names := s.names[i := Some(Named(path, o))]), Reply(Success, None))
  }

  /** LookupObjectByName from slot `i` on: dead objects are passed over. */
  function LookupFrom(s: State, path: string, expected: Option<Kind>, i: nat): (State, Reply)
    requires i <= |s.names|
    decreases |s.names| - i
  {
    if i == |s.names| then (s, Reply(NameNotFound, None)) else
    if s.names[i].None? || s.names[i].value.path != path || !Live(s, s.names[i].value.obj) then LookupFrom(s, path,
        expected, i + 1) else
    var o := s.names[i].value.obj;
    if expected.Some? && s.objs[o].kind != expected then (s, Reply(TypeMismatch, None)) else
    (Reference(s, o), Reply(Success, Some(o)))
  }

  /** AllocateObject: the name is cut to the header's field, the path is inserted whole; an object
      whose path cannot be inserted is still made. */
  function Create(s: State, kind: Kind, path: string): (State, Reply) {
    var o := |s.objs|;
    var t := s.(objs := s.objs + [Header(true, Some(kind), 1, 0, Cut(path, NAME_SIZE), 0)]);
    (if path != "" then InsertName(t, o, path).0 else t, Reply(Success, Some(o)))
  }

  datatype Op =
    | CreateOp(kind: Kind, path: string)
    | CreateRawOp(path: string)
    | ReferenceOp(obj: Id)
    | DereferenceOp(obj: Id)
    | InsertOp(obj: Id, access: nat)
    | CloseOp(handle: nat)
    | ByHandleOp(handle: nat, expected: Option<Kind>)
    | InsertNameOp(obj: Id, path: string)
    | RemoveNameOp(path: string)
    | LookupOp(path: string, expected: Option<Kind>)

  function Step(s: State, op: Op): (State, Reply) {
    match op
    case CreateOp(kind, path) => Create(s, kind, path)
    case CreateRawOp(path) =>
      (s.(objs := s.objs + [Header(true, None, 1, 0, Cut(path, NAME_SIZE), 0)]), Reply(Success, Some(|s.objs|)))
    case ReferenceOp(o) => (Reference(s, o), Reply(Success, None))
    case DereferenceOp(o) => (Dereference(s, o), Reply(Success, None))
    case InsertOp(o, access) => Insert(s, o, access)
    case CloseOp(h) => Close(s, h)
    case ByHandleOp(h, expected) => ByHandle(s, h, expected)
    case InsertNameOp(o, path) => InsertName(s, o, path)
    case RemoveNameOp(path) => (RemoveName(s, path), Reply(Success, None))
    case LookupOp(path, expected) => LookupFrom(s, path, expected, 0)
  }
}
