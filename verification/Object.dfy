/** `DynObject`: construction, and `Drop` over the whole tree of owned objects. */
module Object {
  import opened Wrappers
  import opened Layout
  import opened Memory
  import opened Values
  import Storage

  // ----- what dropping must do, on trees -----

  /** The events of dropping a value: its own destructor first, then its fields in order. */
  ghost function ValueDropTrace(env: Env, v: Val): seq<Event> {
    UserDropTrace(env, v) + KidsDropTrace(env, v.kids)
  }

  ghost function UserDropTrace(env: Env, v: Val): seq<Event> {
    if v.ty in env.types && env.types[v.ty].userDrop then [UserDrop(v.tok, v.ty, v.data)] else []
  }

  lemma UserDropOf(env: Env, v: Val)
    requires v.ty in env.types
    ensures UserDropTrace(env, v) == if env.types[v.ty].userDrop then [UserDrop(v.tok, v.ty, v.data)] else []
  {}

  ghost function KidsDropTrace(env: Env, kids: seq<Obj>): seq<Event> {
    if kids == [] then [] else KidsDropTrace(env, kids[..|kids| - 1]) + DropTrace(env, kids[|kids| - 1])
  }

  /** Dropping an object: its value, then the release of its block. */
  ghost function DropTrace(env: Env, o: Obj): seq<Event> {
    ValueDropTrace(env, o.val) + if o.val.ty in env.types then Storage.FreeTrace(o, env.types[o.val.ty].layout) else []
  }

  /** Skipping the destructor when `needs_drop` is false changes nothing. */
  lemma NothingToDrop(env: Env, v: Val)
    requires WfEnv(env) && v.ty in env.types && !env.types[v.ty].needsDrop && |v.kids| == |env.types[v.ty].fields|
    ensures ValueDropTrace(env, v) == [] && FootKids(v.kids) == multiset{}
  {
    assert WfType(env, env.types[v.ty]);
  }

  // ----- construction -----

  /** The cells of the struct: storage, padding, vtable reference. */
  method Assemble(kind: Kind, storage: seq<Cell>, vtable: Vtable) returns (cells: seq<Cell>)
    requires ValidKind(kind) && |storage| == StorageSize(kind)
    ensures |cells| == DynSize(kind) && cells[..StorageSize(kind)] == storage
    ensures cells[VtableOff(kind)..VtableOff(kind) + WORD] == PointerCells(Static(vtable))
  {
    var s := new Cell[DynSize(kind)](_ => Uninit);
    forall i | 0 <= i < |storage| { s[i] := storage[i]; }
    var vt := PointerCells(Static(vtable));
    var off := VtableOff(kind);
    forall i | 0 <= i < WORD { s[off + i] := vt[i]; }
    cells := s[..];
  }

  lemma StoredSize(env: Env, heap: HeapMap, storage: seq<Cell>, kind: Kind, o: Obj)
    requires WfEnv(env) && ValidKind(kind) && HoldsStored(env, heap, storage, kind, o)
    ensures |storage| == StorageSize(kind) && o.val.ty in env.types
  {}

  lemma ObjectMade(env: Env, heap: HeapMap, storage: seq<Cell>, cells: seq<Cell>, kind: Kind, o: Obj)
    requires WfEnv(env) && ValidKind(kind) && HoldsStored(env, heap, storage, kind, o)
    requires |cells| == DynSize(kind) && cells[..StorageSize(kind)] == storage && o.val.ty in env.types
    requires cells[VtableOff(kind)..VtableOff(kind) + WORD] == PointerCells(Static(VtableFor(env, o.val.ty, kind)))
    ensures HoldsObject(env, heap, cells, kind, o)
  {
    hide HoldsValue, WfEnv, StorageShape, VtableFor, PointerCells;
    PointerRoundTrip(Static(VtableFor(env, o.val.ty, kind)));
    InlineFits(env, heap, storage, kind, o);
    if o.loc.Inline? {
      assert storage[..env.types[o.val.ty].layout.size] == cells[..env.types[o.val.ty].layout.size];
    }
  }

  /** `DynObject::new`. */
  method New(mem: Memory, env: Env, kind: Kind, ty: TypeId, data: seq<Cell>, ghost v: Val)
    returns (cells: seq<Cell>, ghost o: Obj)
    requires mem.Valid() && WfEnv(env) && v.ty == ty && HoldsValue(env, mem.cur.heap, data, v)
    requires ValidKind(kind) && Permitted(env, kind, env.types[ty].layout)
    requires forall h :: h in FootKids(v.kids) ==> h in mem.cur.heap
    modifies mem
    ensures mem.Valid() && mem.cur.stack == old(mem.cur).stack
    ensures o.val == v && HoldsObject(env, mem.cur.heap, cells, kind, o)
    ensures o.loc.Inline? <==> StaysInline(kind, env.types[ty].layout)
    ensures Storage.NewBlock(old(mem.cur).heap, mem.cur.heap, o, env.types[ty].layout, data)
    ensures mem.trace == old(mem.trace) + Storage.AllocTrace(o, env.types[ty].layout)
  {
    hide *;
    var storage;
    storage, o := Storage.New(mem, env, kind, ty, data, v);
    StoredSize(env, mem.cur.heap, storage, kind, o);
    cells := Assemble(kind, storage, VtableFor(env, ty, kind));
    ObjectMade(env, mem.cur.heap, storage, cells, kind, o);
  }

  /** `DynObject::from_box`. */
  method FromBox(mem: Memory, env: Env, kind: Kind, ty: TypeId, boxed: seq<Cell>, ghost o: Obj)
    returns (cells: seq<Cell>, ghost o': Obj)
    requires mem.Valid() && WfEnv(env) && env.alloc && ValidKind(kind) && !kind.Raw?
    requires o.val.ty == ty && ty in env.types && |boxed| == WORD && HoldsBoxed(env, mem.cur.heap, boxed, o)
    requires Unique(Foot(o))
    modifies mem
    ensures mem.Valid() && o'.val == o.val && HoldsObject(env, mem.cur.heap, cells, kind, o')
    ensures o'.loc == if StaysInline(kind, env.types[ty].layout) then Inline else o.loc
    ensures mem.cur == if o'.loc == o.loc then old(mem.cur) else
                         old(mem.cur).(heap := Without(old(mem.cur).heap, Here(o)))
    ensures mem.trace == old(mem.trace) +
                         if o'.loc == o.loc then [] else Storage.FreeTrace(o, env.types[ty].layout)
  {
    hide *;
    var storage;
    storage, o' := Storage.FromBox(mem, env, kind, ty, boxed, o);
    StoredSize(env, mem.cur.heap, storage, kind, o');
    cells := Assemble(kind, storage, VtableFor(env, ty, kind));
    ObjectMade(env, mem.cur.heap, storage, cells, kind, o');
  }

  // ----- drop -----

  /** The vtable of the object at `at`. */
  function VtableAt(s: State, kind: Kind, at: Pointer): Option<Vtable>
    requires ValidKind(kind) && Readable(s, at, DynSize(kind))
  {
    match ReadPointer(Load(s, at, DynSize(kind))[VtableOff(kind)..VtableOff(kind) + WORD])
    case Some(Static(vt)) => Some(vt)
    case _ => None
  }

  ghost predicate Outside(p: Pointer, foot: multiset<nat>) {
    p.At? && p.base.Heap? ==> p.base.h !in foot
  }

  /** At `at` there is a `DynObject` of storage `kind` holding `o`, whose blocks are its own. */
  ghost predicate ObjectAt(env: Env, s: State, at: Pointer, kind: Kind, o: Obj)
    requires WfEnv(env)
  {
    && ValidKind(kind) && at.At? && Readable(s, at, DynSize(kind))
    && HoldsObject(env, s.heap, Load(s, at, DynSize(kind)), kind, o)
    && Unique(Foot(o)) && Outside(at, Foot(o))
  }

  ghost predicate ValueAt(env: Env, s: State, p: Pointer, v: Val)
    requires WfEnv(env)
  {
    && v.ty in env.types && Readable(s, p, env.types[v.ty].layout.size)
    && HoldsValue(env, s.heap, Load(s, p, env.types[v.ty].layout.size), v)
    && Unique(FootKids(v.kids)) && Outside(p, FootKids(v.kids))
  }

  lemma StorageOf(env: Env, s: State, at: Pointer, kind: Kind, o: Obj)
    requires WfEnv(env) && ObjectAt(env, s, at, kind, o)
    ensures ValidKind(kind) && at.At? && Readable(s, at, DynSize(kind)) && Readable(s, at, StorageSize(kind))
    ensures Load(s, at, StorageSize(kind)) == Load(s, at, DynSize(kind))[..StorageSize(kind)]
    ensures o.val.ty in env.types && StorageShape(env, s.heap, Load(s, at, StorageSize(kind)), kind, o)
    ensures HoldsStored(env, s.heap, Load(s, at, StorageSize(kind)), kind, o)
    ensures VtableAt(s, kind, at) == Some(VtableFor(env, o.val.ty, kind))
  {
    hide HoldsValue, Unique, Outside, VtableFor, StorageShape, BoxShape, Load, Readable, WfEnv;
    LoadStart(s, at, DynSize(kind), StorageSize(kind));
    var c := Load(s, at, DynSize(kind));
    InlineFits(env, s.heap, c[..StorageSize(kind)], kind, o);
    if o.loc.Inline? {
      assert c[..StorageSize(kind)][..env.types[o.val.ty].layout.size] == c[..env.types[o.val.ty].layout.size];
    }
  }

  /** The stored value is at `ptr`. */
  lemma StoredValue(env: Env, s: State, at: Pointer, kind: Kind, o: Obj)
    requires WfEnv(env) && ObjectAt(env, s, at, kind, o)
    ensures o.val.ty in env.types && ValueAt(env, s, Storage.PlaceOf(env, at, o), o.val)
    ensures |o.val.kids| == |env.types[o.val.ty].fields|
  {
    hide HoldsField, HoldsObject, Storage.Ptr, Readable, Load, WfEnv, WfType, Foot, FootKids, Unique, StorageShape;
    StorageOf(env, s, at, kind, o);
    Storage.StoredAt(env, s, kind, at, o);
    FootParts(o);
    UniqueSub(FootKids(o.val.kids), Foot(o));
    HereApart(o);
  }

  /** Conversely, an object is its shape and the value at `ptr`. */
  lemma FromParts(env: Env, s: State, at: Pointer, kind: Kind, o: Obj)
    requires WfEnv(env) && ValidKind(kind) && at.At? && Readable(s, at, DynSize(kind)) && o.val.ty in env.types
    requires ObjectShape(env, s.heap, Load(s, at, DynSize(kind)), kind, o)
    requires ValueAt(env, s, Storage.PlaceOf(env, at, o), o.val) && Unique(Foot(o)) && Outside(at, Foot(o))
    ensures ObjectAt(env, s, at, kind, o)
  {
    hide HoldsValue, WfEnv, Unique, Readable, Load, StorageShape, Foot, FootKids, VtableFor, Outside;
    var c := Load(s, at, DynSize(kind));
    LoadStart(s, at, DynSize(kind), StorageSize(kind));
    InlineFits(env, s.heap, c[..StorageSize(kind)], kind, o);
    Storage.StoredAt(env, s, kind, at, o);
    if o.loc.Inline? {
      assert c[..StorageSize(kind)][..env.types[o.val.ty].layout.size] == c[..env.types[o.val.ty].layout.size];
    }
  }

  /** Each field of a value is an object of its own. */
  lemma FieldAt(env: Env, s: State, p: Pointer, v: Val, i: nat)
    requires WfEnv(env) && ValueAt(env, s, p, v) && i < |env.types[v.ty].fields|
    ensures i < |v.kids| && ValidKind(env.types[v.ty].fields[i].kind)
    ensures var f := env.types[v.ty].fields[i];
      WfField(env.types[v.ty], f) && ObjectAt(env, s, PointerAdd(p, f.off), f.kind, v.kids[i])
  {
    hide HoldsObject, HoldsValue, HoldsField, Unique, WfEnv, WfType, Foot, FootKids, DynSize, RoundUp, Readable, Load,
         WfField;
    var d := env.types[v.ty];
    var f := d.fields[i];
    FieldPlace(env, v.ty, i);
    FieldHeld(env, s.heap, Load(s, p, d.layout.size), v, i);
    LoadPart(s, p, d.layout.size, f.off, DynSize(f.kind));
    FootOfKid(v.kids, i);
    UniqueSub(Foot(v.kids[i]), FootKids(v.kids));
  }

  /** Kid `i` is intact once the kids before it are gone. */
  lemma NextField(env: Env, s: State, p: Pointer, v: Val, i: nat)
    requires WfEnv(env) && ValueAt(env, s, p, v) && i < |env.types[v.ty].fields|
    ensures i < |v.kids|
    ensures var f, gone := env.types[v.ty].fields[i], FootKids(v.kids[..i]);
      ObjectAt(env, s.(heap := Without(s.heap, gone)), PointerAdd(p, f.off), f.kind, v.kids[i])
    ensures Without(Without(s.heap, FootKids(v.kids[..i])), Foot(v.kids[i])) ==
      Without(s.heap, FootKids(v.kids[..i + 1]))
    ensures KidsDropTrace(env, v.kids[..i + 1]) == KidsDropTrace(env, v.kids[..i]) + DropTrace(env, v.kids[i])
  {
    hide HoldsValue, ObjectAt, WfEnv, WfType, WfField, Foot, DropTrace, DynSize, Readable, Load, Unique, Without;
    FieldAt(env, s, p, v, i);
    var f, gone := env.types[v.ty].fields[i], FootKids(v.kids[..i]);
    FootOfKid(v.kids, i);
    FootApart(v.kids, i);
    ObjectSurvives(env, s, gone, PointerAdd(p, f.off), f.kind, v.kids[i]);
    WithoutTwice(s.heap, gone, Foot(v.kids[i]));
    assert v.kids[..i + 1][..i] == v.kids[..i];
  }

  /** Removing blocks the object does not own leaves it intact. */
  lemma ObjectSurvives(env: Env, s: State, gone: multiset<nat>, at: Pointer, kind: Kind, o: Obj)
    requires WfEnv(env) && ObjectAt(env, s, at, kind, o) && gone !! Foot(o) && Outside(at, gone)
    ensures ObjectAt(env, s.(heap := Without(s.heap, gone)), at, kind, o)
  {
    hide HoldsObject, WfEnv, DynSize, Foot, Unique;
    FrameObject(env, s.heap, Without(s.heap, gone), Load(s, at, DynSize(kind)), kind, o);
  }

  /** Dropping the kids one after the other drops them all. */
  lemma WithoutTwice(heap: HeapMap, m: multiset<nat>, n: multiset<nat>)
    ensures Without(Without(heap, m), n) == Without(heap, m + n)
  {}

  lemma ValueFacts(env: Env, s: State, p: Pointer, v: Val)
    requires WfEnv(env) && ValueAt(env, s, p, v)
    ensures v.ty in env.types && |v.kids| == |env.types[v.ty].fields|
    ensures Without(s.heap, FootKids(v.kids[..0])) == s.heap && KidsDropTrace(env, v.kids[..0]) == []
    ensures ValueDropTrace(env, v) == UserDropTrace(env, v) + KidsDropTrace(env, v.kids)
    ensures v.kids[..|v.kids|] == v.kids
  {
    hide HoldsField;
  }

  /** `core::ptr::drop_in_place::<T>`: the user's destructor, then the fields in order. */
  method DropValue(mem: Memory, env: Env, p: Pointer, ty: TypeId, ghost v: Val)
    requires mem.Valid() && WfEnv(env) && ValueAt(env, mem.cur, p, v) && v.ty == ty
    modifies mem
    ensures mem.Valid() && mem.cur == old(mem.cur).(heap := Without(old(mem.cur).heap, FootKids(v.kids)))
    ensures mem.trace == old(mem.trace) + ValueDropTrace(env, v)
    decreases v, 0
  {
    hide *;
    ValueFacts(env, mem.cur, p, v);
    var d := env.types[ty];
    UserDropOf(env, v);
    if d.userDrop {
      mem.Dropped(v.tok, v.ty, v.data);
    }
    var i := 0;
    while i < |d.fields|
      invariant 0 <= i <= |d.fields| == |v.kids|
      invariant mem.Valid()
      invariant mem.cur == old(mem.cur).(heap := Without(old(mem.cur).heap, FootKids(v.kids[..i])))
      invariant mem.trace == old(mem.trace) + (UserDropTrace(env, v) + KidsDropTrace(env, v.kids[..i]))
    {
      var f := d.fields[i];
      NextField(env, old(mem.cur), p, v, i);
      DropObject(mem, env, PointerAdd(p, f.off), f.kind, v.kids[i]);
      i := i + 1;
    }
  }

  /** `Drop::drop`: the vtable's destructor if there is one, then the storage with the vtable's
      layout. */
  method DropObject(mem: Memory, env: Env, at: Pointer, kind: Kind, ghost o: Obj)
    requires mem.Valid() && WfEnv(env) && ObjectAt(env, mem.cur, at, kind, o)
    modifies mem
    ensures mem.Valid() && mem.cur == old(mem.cur).(heap := Without(old(mem.cur).heap, Foot(o)))
    ensures mem.trace == old(mem.trace) + DropTrace(env, o)
    decreases o, 1
  {
    hide *;
    StorageOf(env, mem.cur, at, kind, o);
    ShellRemains(env, mem.cur, at, kind, o);
    DropSteps(env, mem.cur, at, kind, o);
    var vtable := VtableAt(mem.cur, kind, at).value;
    if vtable.dropFn.Some? {
      var p := Storage.Ptr(kind, at, Load(mem.cur, at, StorageSize(kind)));
      DropValue(mem, env, p, vtable.dropFn.value, o.val);
    }
    Storage.DropInPlace(mem, env, kind, at, vtable.layout, o);
  }

  /** Dropping a `Box<T>` of the standard library. */
  method DropBox(mem: Memory, env: Env, ty: TypeId, boxed: seq<Cell>, ghost o: Obj)
    requires mem.Valid() && WfEnv(env) && o.val.ty == ty && ty in env.types
    requires HoldsBoxed(env, mem.cur.heap, boxed, o) && Unique(Foot(o))
    modifies mem
    ensures mem.Valid() && mem.cur == old(mem.cur).(heap := Without(old(mem.cur).heap, Foot(o)))
    ensures mem.trace == old(mem.trace) + DropTrace(env, o)
  {
    hide *;
    BoxSteps(env, mem.cur, boxed, o);
    DropValue(mem, env, Storage.PointerIn(boxed), ty, o.val);
    Storage.BoxDropInPlace(mem, env, boxed, env.types[ty].layout, o);
  }

  lemma BoxSteps(env: Env, s: State, boxed: seq<Cell>, o: Obj)
    requires WfEnv(env) && o.val.ty in env.types && HoldsBoxed(env, s.heap, boxed, o) && Unique(Foot(o))
    ensures ValueAt(env, s, Storage.PointerIn(boxed), o.val)
    ensures BoxShape(env, Without(s.heap, FootKids(o.val.kids)), boxed, o)
    ensures Without(Without(s.heap, FootKids(o.val.kids)), Here(o)) == Without(s.heap, Foot(o))
    ensures DropTrace(env, o) == ValueDropTrace(env, o.val) + Storage.FreeTrace(o, env.types[o.val.ty].layout)
  {
    hide HoldsValue, WfEnv, Unique;
    Storage.BoxedAt(env, s, boxed, o);
    assert Storage.PointerIn(boxed) == Storage.PlaceOf(env, Dangling(1), o);
    FootParts(o);
    UniqueSub(FootKids(o.val.kids), Foot(o));
    HereApart(o);
    WithoutTwice(s.heap, FootKids(o.val.kids), Here(o));
  }

  /** What the two steps of `Drop::drop` rely on, and what they add up to. */
  lemma DropSteps(env: Env, s: State, at: Pointer, kind: Kind, o: Obj)
    requires WfEnv(env) && ObjectAt(env, s, at, kind, o) && Readable(s, at, StorageSize(kind))
    requires VtableAt(s, kind, at) == Some(VtableFor(env, o.val.ty, kind))
    ensures o.val.ty in env.types && at.At?
    ensures var d, vt := env.types[o.val.ty], VtableFor(env, o.val.ty, kind);
      vt.layout == d.layout && vt.dropFn == if d.needsDrop then Some(o.val.ty) else None
    ensures !env.types[o.val.ty].needsDrop ==> ValueDropTrace(env, o.val) == []
    ensures !env.types[o.val.ty].needsDrop ==> Without(s.heap, FootKids(o.val.kids)) == s.heap
    ensures ValueAt(env, s, Storage.Ptr(kind, at, Load(s, at, StorageSize(kind))), o.val)
    ensures Without(Without(s.heap, FootKids(o.val.kids)), Here(o)) == Without(s.heap, Foot(o))
    ensures DropTrace(env, o) == ValueDropTrace(env, o.val) + Storage.FreeTrace(o, env.types[o.val.ty].layout)
  {
    hide HoldsObject, ValueAt, WfEnv, StorageShape, Unique;
    StorageOf(env, s, at, kind, o);
    StoredValue(env, s, at, kind, o);
    Storage.StoredAt(env, s, kind, at, o);
    WithoutTwice(s.heap, FootKids(o.val.kids), Here(o));
    if !env.types[o.val.ty].needsDrop {
      NothingToDrop(env, o.val);
    }
  }

  lemma ShellRemains(env: Env, s: State, at: Pointer, kind: Kind, o: Obj)
    requires WfEnv(env) && ObjectAt(env, s, at, kind, o)
    ensures ValidKind(kind) && Readable(s, at, StorageSize(kind))
    ensures var s' := s.(heap := Without(s.heap, FootKids(o.val.kids)));
      Readable(s', at, StorageSize(kind)) && Load(s', at, StorageSize(kind)) == Load(s, at, StorageSize(kind)) &&
      StorageShape(env, s'.heap, Load(s', at, StorageSize(kind)), kind, o)
  {
    hide HoldsObject, Unique, WfEnv;
    StorageOf(env, s, at, kind, o);
    FootParts(o);
    HereApart(o);
  }
}
