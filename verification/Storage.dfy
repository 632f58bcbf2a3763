/** The three storages. A storage is a run of cells inside some stack slot or heap block, and
    its methods work through a pointer to it. */
module Storage {
  import opened Wrappers
  import opened Layout
  import opened Memory
  import opened Values

  /** `Raw::new_unchecked`: the data is written at offset 0 of an uninitialised buffer. */
  method RawNewUnchecked(size: nat, align: nat, data: seq<Cell>) returns (s: seq<Cell>)
    requires align > 0 && |data| <= size
    ensures |s| == RawSize(size, align) && s[..|data|] == data
    ensures forall k :: |data| <= k < |s| ==> s[k] == Uninit
  {
    var raw := new Cell[RawSize(size, align)](_ => Uninit);
    forall i | 0 <= i < |data| { raw[i] := data[i]; }
    s := raw[..];
  }

  /** `Box::new`: allocate and move the data, unless it is zero-sized. */
  method BoxNew(mem: Memory, env: Env, ty: TypeId, data: seq<Cell>, ghost v: Val)
    returns (s: seq<Cell>, ghost o: Obj)
    requires mem.Valid() && WfEnv(env) && env.alloc && v.ty == ty && HoldsValue(env, mem.cur.heap, data, v)
    requires forall h :: h in FootKids(v.kids) ==> h in mem.cur.heap
    modifies mem
    ensures mem.Valid() && mem.cur.stack == old(mem.cur).stack
    ensures |s| == WORD && o.val == v && HoldsBoxed(env, mem.cur.heap, s, o)
    ensures NewBlock(old(mem.cur).heap, mem.cur.heap, o, env.types[ty].layout, data)
    ensures mem.trace == old(mem.trace) + AllocTrace(o, env.types[ty].layout)
  {
    hide HoldsField, WfEnv, WfType, Memory.Valid, FootKids;
    var t := env.types[ty].layout;
    if t.size == 0 {
      o := Obj(Nowhere, v);
      s := PointerCells(Dangling(t.align));
      PointerRoundTrip(Dangling(t.align));
      assert data == [];
    } else {
      var h := mem.Allocate(t, data);
      o := Obj(OnHeap(h), v);
      s := PointerCells(At(Heap(h), 0));
      PointerRoundTrip(At(Heap(h), 0));
      FrameValue(env, old(mem.cur).heap, mem.cur.heap, data, v);
    }
  }

  /** The heap after constructing `o`: one more block if and only if `o` lives in a block. */
  ghost predicate NewBlock(h1: HeapMap, h2: HeapMap, o: Obj, t: Layout, data: seq<Cell>) {
    if o.loc.OnHeap? then o.loc.h !in h1 && h2 == h1[o.loc.h := HeapBlock(t, data)] else h2 == h1
  }

  ghost function AllocTrace(o: Obj, t: Layout): seq<Event> {
    if o.loc.OnHeap? then [Alloc(o.loc.h, t)] else []
  }

  ghost function FreeTrace(o: Obj, t: Layout): seq<Event> {
    if o.loc.OnHeap? then [Free(o.loc.h, t)] else []
  }

  /** The cells of a `RawOrBox`: a variant at offset 0, then the discriminant. */
  method RawOrBoxCells(size: nat, align: nat, variant: seq<Cell>, tag: Cell) returns (s: seq<Cell>)
    requires IsPow2(align) && |variant| <= TagOff(size, align)
    ensures |s| == StorageSize(RawOrBox(size, align))
    ensures s[..|variant|] == variant && s[TagOff(size, align)] == tag
  {
    var off := TagOff(size, align);
    var raw := new Cell[StorageSize(RawOrBox(size, align))](_ => Uninit);
    forall i | 0 <= i < |variant| { raw[i] := variant[i]; }
    raw[off] := tag;
    s := raw[..];
  }

  /** `Storage::new::<T>`. That `Raw` can store the value is a compile-time assertion, hence the
      `requires`. */
  method New(mem: Memory, env: Env, kind: Kind, ty: TypeId, data: seq<Cell>, ghost v: Val)
    returns (s: seq<Cell>, ghost o: Obj)
    requires mem.Valid() && WfEnv(env) && v.ty == ty && HoldsValue(env, mem.cur.heap, data, v)
    requires ValidKind(kind) && Permitted(env, kind, env.types[ty].layout)
    requires forall h :: h in FootKids(v.kids) ==> h in mem.cur.heap
    modifies mem
    ensures mem.Valid() && mem.cur.stack == old(mem.cur).stack
    ensures o.val == v && HoldsStored(env, mem.cur.heap, s, kind, o)
    ensures o.loc.Inline? <==> StaysInline(kind, env.types[ty].layout)
    ensures o.loc.Inline? <==>
      kind.Raw? || (kind.RawOrBox? && |data| <= kind.size && env.types[ty].layout.align <= kind.align)
    ensures o.loc.OnHeap? <==> !o.loc.Inline? && |data| != 0
    ensures NewBlock(old(mem.cur).heap, mem.cur.heap, o, env.types[ty].layout, data)
    ensures mem.trace == old(mem.trace) + AllocTrace(o, env.types[ty].layout)
  {
    hide HoldsValue, WfEnv, Memory.Valid, FootKids, RoundUp;
    ValueShape(env, mem.cur.heap, data, v);
    match kind
    case Raw(size, align) =>
      s := RawNewUnchecked(size, align, data);
      o := Obj(Inline, v);
    case Box =>
      s, o := BoxNew(mem, env, ty, data, v);
    case RawOrBox(size, align) =>
      if CanStore(size, align, env.types[ty].layout) {
        var raw := RawNewUnchecked(size, align, data);
        s := RawOrBoxCells(size, align, raw, RAW_TAG);
        assert s[..|data|] == s[..|raw|][..|data|];
        o := Obj(Inline, v);
      } else {
        var b;
        b, o := BoxNew(mem, env, ty, data, v);
        s := RawOrBoxCells(size, align, b, BOX_TAG);
      }
  }

  /** Moving the data out of an owning box: the data is copied out and the allocation released. */
  method Unbox(mem: Memory, env: Env, ty: TypeId, boxed: seq<Cell>, ghost o: Obj) returns (data: seq<Cell>)
    requires mem.Valid() && WfEnv(env) && o.val.ty == ty && ty in env.types
    requires |boxed| == WORD && HoldsBoxed(env, mem.cur.heap, boxed, o) && Unique(Foot(o))
    modifies mem
    ensures mem.Valid() && HoldsValue(env, mem.cur.heap, data, o.val)
    ensures mem.cur == old(mem.cur).(heap := Without(old(mem.cur).heap, Here(o)))
    ensures mem.trace == old(mem.trace) + FreeTrace(o, env.types[ty].layout)
  {
    hide HoldsValue, WfEnv, Unique;
    BoxedAt(env, mem.cur, boxed, o);
    var p, t := PointerIn(boxed), env.types[ty].layout;
    data := Load(mem.cur, p, t.size);
    if t.size != 0 {
      mem.Deallocate(p, t);
      HereApart(o);
      FrameValue(env, old(mem.cur).heap, mem.cur.heap, data, o.val);
    } else {
      assert mem.cur.heap == Without(mem.cur.heap, multiset{});
    }
  }

  /** `FromBox::from_box`. A `RawOrBox` that can store the data moves it out of the box, whose
      allocation is then released; otherwise the pointer is kept. */
  method FromBox(mem: Memory, env: Env, kind: Kind, ty: TypeId, boxed: seq<Cell>, ghost o: Obj)
    returns (s: seq<Cell>, ghost o': Obj)
    requires mem.Valid() && WfEnv(env) && env.alloc && ValidKind(kind) && !kind.Raw?
    requires o.val.ty == ty && ty in env.types && |boxed| == WORD && HoldsBoxed(env, mem.cur.heap, boxed, o)
    requires Unique(Foot(o))
    modifies mem
    ensures mem.Valid() && o'.val == o.val && HoldsStored(env, mem.cur.heap, s, kind, o')
    ensures o'.loc == if StaysInline(kind, env.types[ty].layout) then Inline else o.loc
    ensures o'.loc == if kind.RawOrBox? && env.types[ty].layout.size <= kind.size
                         && env.types[ty].layout.align <= kind.align then Inline else o.loc
    ensures mem.cur == if o'.loc == o.loc then old(mem.cur) else
                         old(mem.cur).(heap := Without(old(mem.cur).heap, Here(o)))
    ensures mem.trace == old(mem.trace) + if o'.loc == o.loc then [] else FreeTrace(o, env.types[ty].layout)
  {
    hide HoldsValue, WfEnv, Unique, Foot, FootKids, RoundUp, Memory.Valid;
    match kind
    case Box =>
      s, o' := boxed, o;
    case RawOrBox(size, align) =>
      if CanStore(size, align, env.types[ty].layout) {
        var data := Unbox(mem, env, ty, boxed, o);
        ValueShape(env, mem.cur.heap, data, o.val);
        o' := Obj(Inline, o.val);
        var raw := RawNewUnchecked(size, align, data);
        s := RawOrBoxCells(size, align, raw, RAW_TAG);
        assert s[..|data|] == s[..|raw|][..|data|];
      } else {
        s := RawOrBoxCells(size, align, boxed, BOX_TAG);
        o' := o;
      }
  }

  function PointerIn(cells: seq<Cell>): Pointer {
    match ReadPointer(cells)
    case Some(p) => p
    case None => Dangling(1)
  }

  /** `Storage::ptr` and `Storage::ptr_mut` of the storage at `at`. */
  function Ptr(kind: Kind, at: Pointer, cells: seq<Cell>): Pointer
    requires ValidKind(kind) && |cells| == StorageSize(kind)
  {
    match kind
    case Raw(_, _) => at
    case Box => PointerIn(cells[..WORD])
    case RawOrBox(s, a) => if cells[TagOff(s, a)] == RAW_TAG then at else PointerIn(cells[..WORD])
  }

  /** `Storage::as_ref::<T>` and `Storage::as_mut::<T>`. At the type the storage was constructed
      with, the unreachable arm is never taken and the address is the one of `ptr`. */
  method AsMut(mem: Memory, env: Env, kind: Kind, at: Pointer, ty: TypeId, ghost o: Obj) returns (p: Pointer)
    requires WfEnv(env) && ValidKind(kind) && at.At?
    requires Readable(mem.cur, at, StorageSize(kind))
    requires HoldsStored(env, mem.cur.heap, Load(mem.cur, at, StorageSize(kind)), kind, o) && o.val.ty == ty
    ensures p == Ptr(kind, at, Load(mem.cur, at, StorageSize(kind)))
    ensures Readable(mem.cur, p, env.types[ty].layout.size)
    ensures HoldsValue(env, mem.cur.heap, Load(mem.cur, p, env.types[ty].layout.size), o.val)
    ensures p == PlaceOf(env, at, o)
  {
    StoredAt(env, mem.cur, kind, at, o);
    var cells := Load(mem.cur, at, StorageSize(kind));
    match kind
    case Raw(s, a) =>
      p := at;
    case Box =>
      p := PointerIn(cells[..WORD]);
    case RawOrBox(s, a) =>
      var tag := cells[TagOff(s, a)];
      if tag == RAW_TAG && CanStore(s, a, env.types[ty].layout) {
        p := at;
      } else if tag == BOX_TAG && !CanStore(s, a, env.types[ty].layout) {
        p := PointerIn(cells[..WORD]);
      } else {
        assert false;
      }
  }

  /** `ptr` points to the stored value. */
  lemma StoredAt(env: Env, s: State, kind: Kind, at: Pointer, o: Obj)
    requires WfEnv(env) && ValidKind(kind) && at.At? && Readable(s, at, StorageSize(kind))
    requires StorageShape(env, s.heap, Load(s, at, StorageSize(kind)), kind, o)
    ensures var p, n := Ptr(kind, at, Load(s, at, StorageSize(kind))), env.types[o.val.ty].layout.size;
      Readable(s, p, n) && Load(s, p, n) == ValueCells(env, s.heap, Load(s, at, StorageSize(kind)), o)
    ensures Ptr(kind, at, Load(s, at, StorageSize(kind))) == PlaceOf(env, at, o)
  {
    var cells := Load(s, at, StorageSize(kind));
    assert kind.Box? ==> cells[..WORD] == cells;
    if o.loc.Inline? {
      LoadStart(s, at, StorageSize(kind), env.types[o.val.ty].layout.size);
    } else {
      BoxedAt(env, s, cells[..WORD], o);
    }
  }

  /** An owning box points to its value. */
  lemma BoxedAt(env: Env, s: State, cells: seq<Cell>, o: Obj)
    requires WfEnv(env) && o.val.ty in env.types && BoxShape(env, s.heap, cells, o)
    ensures var p, n := PointerIn(cells), env.types[o.val.ty].layout.size;
      Readable(s, p, n) && Load(s, p, n) == ValueCells(env, s.heap, cells, o)
    ensures forall at :: PointerIn(cells) == PlaceOf(env, at, o)
  {
    if o.loc.OnHeap? {
      var c := s.heap[o.loc.h].cells;
      assert c[0..|c|] == c;
    }
  }

  /** Where the value of an object is, the object being at `at`. */
  ghost function PlaceOf(env: Env, at: Pointer, o: Obj): Pointer
    requires o.val.ty in env.types
  {
    match o.loc
    case Inline => at
    case OnHeap(h) => At(Heap(h), 0)
    case Nowhere => Dangling(env.types[o.val.ty].layout.align)
  }

  /** `Storage::drop_in_place`, given the layout of the stored data. */
  method DropInPlace(mem: Memory, env: Env, kind: Kind, at: Pointer, layout: Layout, ghost o: Obj)
    requires mem.Valid() && ValidKind(kind) && at.At?
    requires Readable(mem.cur, at, StorageSize(kind))
    requires StorageShape(env, mem.cur.heap, Load(mem.cur, at, StorageSize(kind)), kind, o)
    requires layout == env.types[o.val.ty].layout
    modifies mem
    ensures mem.Valid() && mem.cur == old(mem.cur).(heap := Without(old(mem.cur).heap, Here(o)))
    ensures mem.trace == old(mem.trace) + FreeTrace(o, layout)
  {
    var cells := Load(mem.cur, at, StorageSize(kind));
    WithoutNothing(mem.cur.heap);
    match kind
    case Raw(_, _) =>
    case Box => BoxDropInPlace(mem, env, cells[..WORD], layout, o);
    case RawOrBox(size, align) =>
      if cells[TagOff(size, align)] != RAW_TAG {
        BoxDropInPlace(mem, env, cells[..WORD], layout, o);
      }
  }

  /** `Box::drop_in_place`: nothing was allocated for a zero-sized value. */
  method BoxDropInPlace(mem: Memory, env: Env, boxed: seq<Cell>, layout: Layout, ghost o: Obj)
    requires mem.Valid() && o.val.ty in env.types && BoxShape(env, mem.cur.heap, boxed, o)
    requires layout == env.types[o.val.ty].layout
    modifies mem
    ensures mem.Valid() && mem.cur == old(mem.cur).(heap := Without(old(mem.cur).heap, Here(o)))
    ensures mem.trace == old(mem.trace) + FreeTrace(o, layout)
  {
    WithoutNothing(mem.cur.heap);
    if layout.size != 0 {
      mem.Deallocate(PointerIn(boxed), layout);
    }
  }

  lemma WithoutNothing(heap: HeapMap)
    ensures Without(heap, multiset{}) == heap
  {}
}
