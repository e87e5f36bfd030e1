/** What every call of the object manager does and answers, in terms of headers, slots and entries
    alone.  The table has 256 slots; the handle of slot `i` is 8 (i + 1). */
module ObjectCalls {
  import opened Wrappers
  import opened ObjectSpec

  /** The header is there and its magic number is set. */
  predicate Lives(s: State, o: Id) { o < |s.objs| && s.objs[o].live }

  /** Slot `i` is the first free one. */
  predicate FirstHole<T>(entries: seq<Option<T>>, i: nat) {
    i < |entries| && entries[i].None? && forall j | 0 <= j < i :: entries[j].Some?
  }

  predicate Full<T>(entries: seq<Option<T>>) { forall j | 0 <= j < |entries| :: entries[j].Some? }

  lemma FirstFreeIs<T>(entries: seq<Option<T>>)
    ensures var i := FirstFree(entries, 0); if i == |entries| then Full(entries) else FirstHole(entries, i)
  {}

  /** Entry `i` has the path. */
  predicate HasPath(names: seq<Option<Named>>, path: string, i: nat) {
    i < |names| && names[i].Some? && names[i].value.path == path
  }

  predicate FirstWithPath(names: seq<Option<Named>>, path: string, i: nat) {
    HasPath(names, path, i) && forall j | 0 <= j < i :: !HasPath(names, path, j)
  }

  predicate Unnamed(names: seq<Option<Named>>, path: string) {
    forall j | 0 <= j < |names| :: !HasPath(names, path, j)
  }

  lemma FirstNamedIs(names: seq<Option<Named>>, path: string)
    ensures var i := FirstNamed(names, path, 0);
      if i == |names| then Unnamed(names, path) else FirstWithPath(names, path, i)
  {}

  // ---- Lifecycle --------------------------------------------------------------------------------

  /** AllocateObject: a live object with one reference and no handle; its header has room for 63
      characters of the path, and the whole path is entered into the namespace if that is possible. */
  lemma Created(s: State, kind: Kind, path: string)
    ensures var (t, r) := Create(s, kind, path);
      var name := if |path| < 64 then path else path[..63];
      var made := s.(objs := s.objs + [Header(true, Some(kind), 1, 0, name, 0)]);
      && r == Reply(Success, Some(|s.objs|))
      && t == if path == "" then made else InsertName(made, |s.objs|, path).0
  {}

  /** AllocateObjectRaw: an object without a type, in no namespace. */
  lemma RawCreated(s: State, path: string)
    ensures var (t, r) := Step(s, CreateRawOp(path));
      && r == Reply(Success, Some(|s.objs|))
      && t == s.(objs := s.objs + [Header(true, None, 1, 0, if |path| < 64 then path else path[..63], 0)])
  {}

  /** ReferenceObject counts one more reference of a live object. */
  lemma Referenced(s: State, o: Id)
    ensures Reference(s, o) ==
      if Lives(s, o) then s.(objs := s.objs[o := s.objs[o].(refs := s.objs[o].refs + 1)]) else s
  {}

  /** The entry that goes with a name, if any: the first with that path. */
  ghost predicate NameGone(was: seq<Option<Named>>, now: seq<Option<Named>>, path: string) {
    && (Unnamed(was, path) ==> now == was)
    && forall i: nat | FirstWithPath(was, path, i) :: now == was[i := None]
  }

  lemma OneFirst(names: seq<Option<Named>>, path: string, i: nat, j: nat)
    requires FirstWithPath(names, path, i) && FirstWithPath(names, path, j)
    ensures i == j
  {}

  /** RemoveObjectByName clears the first entry with the path. */
  lemma NameRemoved(s: State, path: string)
    ensures RemoveName(s, path) == s.(names := RemoveName(s, path).names)
    ensures NameGone(s.names, RemoveName(s, path).names, path)
  {
    FirstNamedIs(s.names, path);
    forall i: nat, j: nat | FirstWithPath(s.names, path, i) && FirstWithPath(s.names, path, j) ensures i == j {
      OneFirst(s.names, path, i, j);
    }
  }

  /** DereferenceObject counts one reference less of a live object; the last one takes the entry with
      the header's name along, calls OnClose once if the type has one, and clears the magic number. */
  lemma Dereferenced(s: State, o: Id)
    ensures var t := Dereference(s, o);
      if !Lives(s, o) then t == s
      else
        var h := s.objs[o];
        if h.refs > 1 then t == s.(objs := s.objs[o := h.(refs := h.refs - 1)])
        else
          var closes := if h.kind.Some? && h.kind.value.onClose then 1 else 0;
          && t == s.(objs := s.objs[o := h.(refs := h.refs - 1, live := false, closed := h.closed + closes)],
                     names := t.names)
          && if h.name == "" then t.names == s.names else NameGone(s.names, t.names, h.name)
  {
    if Lives(s, o) { NameRemoved(SetObj(s, o, s.objs[o].(refs := s.objs[o].refs - 1)), s.objs[o].name); }
    hide RemoveName, NameGone;
  }

  // ---- Handles ------------------------------------------------------------------------------------

  /** A handle is good if it is one of 8, 16, ..., 2048. */
  predicate GoodHandle(h: nat) { h % 8 == 0 && 8 <= h <= 2048 }

  /** What the table has behind a handle. */
  function Behind(s: State, h: nat): Option<Slot>
    requires |s.table| == 256
  {
    if GoodHandle(h) then s.table[h / 8 - 1] else None
  }

  lemma SlotOfIs(s: State, h: nat)
    requires |s.table| == HANDLES
    ensures SlotOf(s, h) == Behind(s, h)
  {}

  /** InsertObject: a live object gets the first free slot, and one reference and one handle more; the
      handle handed out led nowhere before, and leads to the object now. */
  lemma Inserted(s: State, o: Id, access: nat)
    requires |s.table| == HANDLES
    ensures var (t, r) := Insert(s, o, access);
      if !Lives(s, o) then t == s && r == Reply(InvalidParameter, None)
      else if Full(s.table) then t == s && r == Reply(NoResources, None)
      else
        && r.status == Success && r.out.Some? && GoodHandle(r.out.value)
        && FirstHole(s.table, r.out.value / 8 - 1)
        && t == s.(table := s.table[r.out.value / 8 - 1 := Some(Slot(o, access))],
                   objs := s.objs[o := s.objs[o].(refs := s.objs[o].refs + 1, handles := s.objs[o].handles + 1)])
        && Behind(s, r.out.value) == None && Behind(t, r.out.value) == Some(Slot(o, access))
  {
    FirstFreeIs(s.table);
    hide FirstFree;
  }

  /** A handle just handed out gives the object back, with its access. */
  lemma InsertedIsFound(s: State, o: Id, access: nat, expected: Option<Kind>)
    requires |s.table| == HANDLES && Insert(s, o, access).1.status == Success
    ensures var (t, r) := Insert(s, o, access);
      && r.out.Some? && SlotOf(s, r.out.value) == None && SlotOf(t, r.out.value) == Some(Slot(o, access))
      && ByHandle(t, r.out.value, expected).1 ==
         if expected.Some? && s.objs[o].kind != expected then Reply(TypeMismatch, None) else Reply(Success, Some(o))
  {
    Inserted(s, o, access);
    var (t, r) := Insert(s, o, access);
    SlotOfIs(s, r.out.value);
    SlotOfIs(t, r.out.value);
    hide Insert, SlotOf;
  }

  /** CloseHandle: the slot is free again; a live object loses a handle and a reference. */
  lemma HandleClosed(s: State, h: nat)
    requires |s.table| == HANDLES
    ensures var (t, r) := Close(s, h);
      if Behind(s, h).None? then t == s && r == Reply(InvalidHandle, None)
      else
        var o := Behind(s, h).value.obj;
        var freed := s.(table := s.table[h / 8 - 1 := None]);
        && r == Reply(Success, None)
        && t == if !Lives(s, o) then freed
                else Dereference(freed.(objs := s.objs[o := s.objs[o].(handles := s.objs[o].handles - 1)]), o)
  {
    SlotOfIs(s, h);
    hide SlotOf, Dereference;
  }

  /** ReferenceObjectByHandle: the live object behind the handle, of the expected type if one is given,
      with one reference more. */
  lemma FoundByHandle(s: State, h: nat, expected: Option<Kind>)
    requires |s.table| == HANDLES
    ensures var (t, r) := ByHandle(s, h, expected);
      if Behind(s, h).None? || !Lives(s, Behind(s, h).value.obj) then t == s && r == Reply(InvalidHandle, None)
      else
        var o := Behind(s, h).value.obj;
        if expected.Some? && s.objs[o].kind != expected then t == s && r == Reply(TypeMismatch, None)
        else r == Reply(Success, Some(o))
             && t == s.(objs := s.objs[o := s.objs[o].(refs := s.objs[o].refs + 1)])
  {
    SlotOfIs(s, h);
    hide SlotOf;
  }

  // ---- Namespace -----------------------------------------------------------------------------------

  /** InsertObjectByName: a path begins with a backslash and has at most 127 characters; it must be new,
      and takes the first free entry. */
  lemma NameInserted(s: State, o: Id, path: string)
    ensures var (t, r) := InsertName(s, o, path);
      if path == "" || path[0] != '\\' || |path| > 127 then t == s && r == Reply(InvalidParameter, None)
      else if exists i: nat :: HasPath(s.names, path, i) then t == s && r == Reply(AlreadyExists, None)
      else if Full(s.names) then t == s && r == Reply(NoResources, None)
      else r == Reply(Success, None)
           && exists i: nat :: FirstHole(s.names, i) && t == s.(names := s.names[i := Some(Named(path, o))])
  {
    FirstNamedIs(s.names, path);
    FirstFreeIs(s.names);
    hide FirstNamed, FirstFree;
  }

  /** Entry `j` has the path and leads to a live object. */
  predicate Candidate(s: State, path: string, j: nat) {
    HasPath(s.names, path, j) && Lives(s, s.names[j].value.obj)
  }

  /** LookupObjectByName, from an entry on: the first entry with the path that leads to a live object
      decides.  Its object must be of the expected type, if one is given, and gains a reference. */
  lemma {:induction false} LookedUp(s: State, path: string, expected: Option<Kind>, i: nat)
    requires i <= |s.names|
    ensures var (t, r) := LookupFrom(s, path, expected, i);
      || (t == s && r == Reply(NameNotFound, None) && forall j: nat | i <= j :: !Candidate(s, path, j))
      || exists j: nat | i <= j :: Candidate(s, path, j) && (forall k: nat | i <= k < j :: !Candidate(s, path, k))
           && Answered(s, s.names[j].value.obj, expected, t, r)
    decreases |s.names| - i
  {
    hide Answered;
    if i < |s.names| {
      if Candidate(s, path, i) { AnswersThere(s, path, expected, i); } else { LookedUp(s, path, expected, i + 1); }
    }
  }

  predicate Answered(s: State, o: Id, expected: Option<Kind>, t: State, r: Reply) {
    o < |s.objs| &&
    if expected.Some? && s.objs[o].kind != expected then t == s && r == Reply(TypeMismatch, None)
    else r == Reply(Success, Some(o)) && t == s.(objs := s.objs[o := s.objs[o].(refs := s.objs[o].refs + 1)])
  }

  lemma AnswersThere(s: State, path: string, expected: Option<Kind>, i: nat)
    requires Candidate(s, path, i)
    ensures var (t, r) := LookupFrom(s, path, expected, i); Answered(s, s.names[i].value.obj, expected, t, r)
  {}

  /** What was inserted under a path is what a lookup of that path finds. */
  lemma InsertedNameIsFound(s: State, o: Id, path: string)
    requires Lives(s, o) && InsertName(s, o, path).1.status == Success
    ensures LookupFrom(InsertName(s, o, path).0, path, None, 0).1 == Reply(Success, Some(o))
  {
    NameInserted(s, o, path);
    var t := InsertName(s, o, path).0;
    hide InsertName, LookupFrom, Answered;
    var i: nat :| FirstHole(s.names, i) && t == s.(names := s.names[i := Some(Named(path, o))]);
    forall j: nat ensures Candidate(t, path, j) <==> j == i { assert !HasPath(s.names, path, j); }
    assert Candidate(t, path, i);
    var (u, r) := LookupFrom(t, path, None, 0);
    LookedUp(t, path, None, 0);
    assert Answered(t, o, None, u, r);
    AnswerOf(t, o, u, r);
  }

  lemma AnswerOf(s: State, o: Id, t: State, r: Reply)
    requires Answered(s, o, None, t, r)
    ensures r == Reply(Success, Some(o))
  {}
}
