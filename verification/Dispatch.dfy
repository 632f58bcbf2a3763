/** Using an object in place: calls through the vtable, `downcast_ref`, `downcast_mut`, on the
    object itself or on an object nested in its value at any depth. */
module Dispatch {
  import opened Layout
  import opened Memory
  import opened Values
  import opened Object
  import Storage
  import opened Data
  import opened Client

  ghost predicate SameOutside(c: seq<Cell>, c': seq<Cell>, off: nat, n: nat) {
    |c| == |c'| && off + n <= |c| && c'[..off] == c[..off] && c'[off + n..] == c[off + n..]
  }

  /** From `s` to `s'` nothing changed but `n` cells at `at` and the cells of the blocks `foot`. */
  ghost predicate OnlyInside(s: State, s': State, at: Pointer, n: nat, foot: multiset<nat>) {
    && s'.stack.Keys == s.stack.Keys && s'.heap.Keys == s.heap.Keys
    && (forall i :: i in s.stack ==>
         if n > 0 && at.At? && at.base == Stack(i) then SameOutside(s.stack[i], s'.stack[i], at.off, n)
         else s'.stack[i] == s.stack[i])
    && (forall h :: h in s.heap && h !in foot ==>
         if n > 0 && at.At? && at.base == Heap(h) then SameOutside(s.heap[h].cells, s'.heap[h].cells, at.off, n)
         else s'.heap[h] == s.heap[h])
    && (forall h :: h in s.heap ==> s'.heap[h].layout == s.heap[h].layout)
  }

  lemma LoadOutside(s: State, s': State, p: Pointer, n: nat, off: nat, k: nat, foot: multiset<nat>)
    requires 0 < n && off + k <= n && Readable(s, p, n) && Outside(p, foot)
    requires OnlyInside(s, s', PointerAdd(p, off), k, foot)
    ensures Readable(s', p, n) && SameOutside(Load(s, p, n), Load(s', p, n), off, k)
  {
    if k > 0 {
      match p.base
      case Stack(i) => SliceOutside(s.stack[i], s'.stack[i], p.off, n, off, k);
      case Heap(h) => SliceOutside(s.heap[h].cells, s'.heap[h].cells, p.off, n, off, k);
    }
  }

  lemma SliceOutside(c: seq<Cell>, c': seq<Cell>, start: nat, n: nat, off: nat, k: nat)
    requires off + k <= n && start + n <= |c| && SameOutside(c, c', start + off, k)
    ensures SameOutside(c[start..start + n], c'[start..start + n], off, k)
  {
    assert c'[start..start + n][..off] == c'[..start + off][start..];
    assert c[start..start + n][..off] == c[..start + off][start..];
    assert c'[start..start + n][off + k..] == c'[start + off + k..][..n - off - k];
    assert c[start..start + n][off + k..] == c[start + off + k..][..n - off - k];
  }

  lemma Widen(s: State, s': State, p: Pointer, n: nat, off: nat, k: nat, foot: multiset<nat>, foot': multiset<nat>)
    requires off + k <= n && p.At? && Readable(s, p, n) && 0 < n
    requires OnlyInside(s, s', PointerAdd(p, off), k, foot) && foot <= foot' && Outside(p, foot)
    ensures OnlyInside(s, s', p, n, foot')
  {
    if k > 0 {
      match p.base
      case Stack(i) => WidenCells(s.stack[i], s'.stack[i], p.off, n, off, k);
      case Heap(h) => WidenCells(s.heap[h].cells, s'.heap[h].cells, p.off, n, off, k);
    }
  }

  lemma WidenCells(c: seq<Cell>, c': seq<Cell>, start: nat, n: nat, off: nat, k: nat)
    requires off + k <= n && start + n <= |c| && SameOutside(c, c', start + off, k)
    ensures SameOutside(c, c', start, n)
  {
    assert c[..start] == c[..start + off][..start];
    assert c'[..start] == c'[..start + off][..start];
    assert c[start + n..] == c[start + off + k..][n - off - k..];
    assert c'[start + n..] == c'[start + off + k..][n - off - k..];
  }

  lemma SameElsewhere(s: State, s': State, at: Pointer, n: nat, foot: multiset<nat>, other: multiset<nat>)
    requires OnlyInside(s, s', at, n, foot) && foot !! other && Outside(at, other)
    ensures SameOn(other, s.heap, s'.heap)
  {}

  /** A field whose cells and blocks did not change still holds the same object. */
  lemma FieldKept(env: Env, h: HeapMap, h': HeapMap, cells: seq<Cell>, cells': seq<Cell>, v: Val, j: nat)
    requires WfEnv(env) && HoldsValue(env, h, cells, v) && |cells'| == |cells|
    requires v.ty in env.types && j < |env.types[v.ty].fields| == |v.kids| && SameOn(Foot(v.kids[j]), h, h')
    requires |cells| == env.types[v.ty].layout.size && ValidKind(env.types[v.ty].fields[j].kind)
    requires var f := env.types[v.ty].fields[j];
      f.off + DynSize(f.kind) <= |cells|
        && cells'[f.off..f.off + DynSize(f.kind)] == cells[f.off..f.off + DynSize(f.kind)]
    ensures WfType(env, env.types[v.ty]) && HoldsField(env, h', cells', env.types[v.ty], v.kids[j], j)
  {
    hide HoldsObject, WfType, DynSize;
    var f := env.types[v.ty].fields[j];
    FieldHeld(env, h, cells, v, j);
    FrameObject(env, h, h', cells[f.off..f.off + DynSize(f.kind)], f.kind, v.kids[j]);
  }

  /** A write at the start of `n` cells. */
  lemma StoreAt(s: State, p: Pointer, n: nat, new_: seq<Cell>, foot: multiset<nat>)
    requires Readable(s, p, n) && |new_| <= n && Outside(p, foot)
    ensures Readable(s, p, |new_|) && Readable(Store(s, p, new_), p, n)
    ensures Load(Store(s, p, new_), p, n) == Patch(Load(s, p, n), 0, new_)
    ensures OnlyInside(s, Store(s, p, new_), p, n, foot) && SameOn(foot, s.heap, Store(s, p, new_).heap)
  {
    hide Patch, SameOn, OnlyInside;
    StoreInside(s, p, n, new_, foot);
    if new_ == [] {
      PatchNothing(Load(s, p, n));
    } else {
      match p.base
      case Stack(i) => PatchPart(s.stack[i], p.off, n, new_);
      case Heap(h) => PatchPart(s.heap[h].cells, p.off, n, new_);
    }
  }

  lemma PatchNothing(c: seq<Cell>)
    ensures Patch(c, 0, []) == c
  {}

  lemma StoreInside(s: State, p: Pointer, n: nat, new_: seq<Cell>, foot: multiset<nat>)
    requires Readable(s, p, n) && |new_| <= n && Outside(p, foot)
    ensures Readable(s, p, |new_|)
    ensures OnlyInside(s, Store(s, p, new_), p, n, foot) && SameOn(foot, s.heap, Store(s, p, new_).heap)
  {
    hide Patch;
    if new_ != [] {
      match p.base
      case Stack(i) => PatchPart(s.stack[i], p.off, n, new_);
      case Heap(h) => PatchPart(s.heap[h].cells, p.off, n, new_);
    }
  }

  lemma PatchPart(c: seq<Cell>, off: nat, n: nat, new_: seq<Cell>)
    requires off + n <= |c| && |new_| <= n
    ensures SameOutside(c, Patch(c, off, new_), off, n)
    ensures Patch(c, off, new_)[off..off + n] == Patch(c[off..off + n], 0, new_)
  {}

  /** Overwriting the plain bytes of a value changes them and nothing else. */
  lemma WritePlain(env: Env, s: State, p: Pointer, v: Val, data: seq<byte>)
    requires WfEnv(env) && ValueAt(env, s, p, v) && |data| == env.types[v.ty].plain
    ensures Readable(s, p, |data|)
    ensures ValueAt(env, Store(s, p, BytesAsCells(data)), p, v.(data := data))
    ensures OnlyInside(s, Store(s, p, BytesAsCells(data)), p, env.types[v.ty].layout.size, FootKids(v.kids))
  {
    hide HoldsField, HoldsObject, Unique, DynSize, Store, OnlyInside, Readable, Load, WfEnv, WfType, SameOn,
         Foot, FootKids, Patch, BytesAsCells, Outside;
    var d := env.types[v.ty];
    KnownType(env, v.ty);
    var n, new_ := d.layout.size, BytesAsCells(data);
    StoreAt(s, p, n, new_, FootKids(v.kids));
    var s' := Store(s, p, new_);
    PatchStart(Load(s, p, n), new_);
    forall j | 0 <= j < |v.kids| ensures HoldsField(env, s'.heap, Load(s', p, n), d, v.kids[j], j) {
      PlainKid(env, s, s', p, v, new_, j);
    }
  }

  lemma PatchStart(c: seq<Cell>, new_: seq<Cell>)
    requires |new_| <= |c|
    ensures |Patch(c, 0, new_)| == |c| && Patch(c, 0, new_)[..|new_|] == new_
  {
    assert Patch(c, 0, new_)[0..|new_|] == new_;
  }

  lemma PlainKid(env: Env, s: State, s': State, p: Pointer, v: Val, new_: seq<Cell>, j: nat)
    requires WfEnv(env) && ValueAt(env, s, p, v) && |new_| == env.types[v.ty].plain && j < |v.kids|
    requires SameOn(FootKids(v.kids), s.heap, s'.heap) && |new_| <= env.types[v.ty].layout.size
    requires var n := env.types[v.ty].layout.size;
      Readable(s', p, n) && Load(s', p, n) == Patch(Load(s, p, n), 0, new_)
    ensures WfType(env, env.types[v.ty]) && j < |env.types[v.ty].fields|
    ensures var d := env.types[v.ty]; HoldsField(env, s'.heap, Load(s', p, d.layout.size), d, v.kids[j], j)
  {
    hide HoldsField, HoldsObject, Unique, DynSize, Store, Readable, Load, WfEnv, WfType, SameOn, Foot, FootKids, Patch;
    KnownType(env, v.ty);
    FieldPlace(env, v.ty, j);
    FootOfKid(v.kids, j);
    SameOnLess(Foot(v.kids[j]), FootKids(v.kids), s.heap, s'.heap);
    var n := env.types[v.ty].layout.size;
    FieldKept(env, s.heap, s'.heap, Load(s, p, n), Load(s', p, n), v, j);
  }

  lemma SliceApart(c: seq<Cell>, c': seq<Cell>, off: nat, n: nat, off': nat, n': nat)
    requires SameOutside(c, c', off, n) && off' + n' <= |c| && (off + n <= off' || off' + n' <= off)
    ensures c'[off'..off' + n'] == c[off'..off' + n']
  {
    forall k | off' <= k < off' + n' ensures c'[k] == c[k] {
      if off + n <= off' {
        assert c'[off + n..][k - off - n] == c[off + n..][k - off - n];
      } else {
        assert c'[..off][k] == c[..off][k];
      }
    }
  }

  /** Using field `i` leaves field `j` alone. */
  lemma FieldElsewhere(env: Env, s: State, s': State, p: Pointer, v: Val, i: nat, j: nat)
    requires WfEnv(env) && ValueAt(env, s, p, v) && i < |v.kids| && j < |v.kids| && i != j
    requires i < |env.types[v.ty].fields| && ValidKind(env.types[v.ty].fields[i].kind)
    requires var f := env.types[v.ty].fields[i];
      OnlyInside(s, s', PointerAdd(p, f.off), DynSize(f.kind), Foot(v.kids[i]))
    requires Readable(s', p, env.types[v.ty].layout.size)
    requires var f, n := env.types[v.ty].fields[i], env.types[v.ty].layout.size;
      SameOutside(Load(s, p, n), Load(s', p, n), f.off, DynSize(f.kind))
    ensures WfType(env, env.types[v.ty]) && j < |env.types[v.ty].fields|
    ensures var d := env.types[v.ty]; HoldsField(env, s'.heap, Load(s', p, d.layout.size), d, v.kids[j], j)
  {
    hide HoldsObject, HoldsField, Unique, DynSize, Readable, Load, WfEnv, WfType, OnlyInside, SameOn, Foot, FootKids;
    var d := env.types[v.ty];
    KnownType(env, v.ty);
    FieldPlace(env, v.ty, j);
    FieldsApart(env, v.ty, i, j);
    FootOfKid(v.kids, j);
    if i < j { FootDisjoint(v.kids, i, j); } else { FootDisjoint(v.kids, j, i); }
    SameElsewhere(s, s', PointerAdd(p, d.fields[i].off), DynSize(d.fields[i].kind), Foot(v.kids[i]), Foot(v.kids[j]));
    SliceApart(Load(s, p, d.layout.size), Load(s', p, d.layout.size), d.fields[i].off, DynSize(d.fields[i].kind),
               d.fields[j].off, DynSize(d.fields[j].kind));
    FieldKept(env, s.heap, s'.heap, Load(s, p, d.layout.size), Load(s', p, d.layout.size), v, j);
  }

  /** Using a field in place changes that field of the value and nothing else. */
  lemma WriteField(env: Env, s: State, s': State, p: Pointer, v: Val, i: nat, kid: Obj)
    requires WfEnv(env) && ValueAt(env, s, p, v) && i < |env.types[v.ty].fields| && i < |v.kids|
    requires var f := env.types[v.ty].fields[i];
      ValidKind(f.kind) && ObjectAt(env, s', PointerAdd(p, f.off), f.kind, kid) &&
      OnlyInside(s, s', PointerAdd(p, f.off), DynSize(f.kind), Foot(v.kids[i]))
    requires Foot(kid) == Foot(v.kids[i])
    ensures ValueAt(env, s', p, v.(kids := v.kids[i := kid]))
    ensures FootKids(v.kids[i := kid]) == FootKids(v.kids)
    ensures OnlyInside(s, s', p, env.types[v.ty].layout.size, FootKids(v.kids))
  {
    hide HoldsObject, Unique, DynSize, OnlyInside, Readable, Load, WfEnv, WfType, Foot, FootKids;
    var d := env.types[v.ty];
    KnownType(env, v.ty);
    var f, n, k := d.fields[i], d.layout.size, DynSize(d.fields[i].kind);
    FieldPlace(env, v.ty, i);
    FieldAt(env, s, p, v, i);
    FootOfKid(v.kids, i);
    LoadOutside(s, s', p, n, f.off, k, Foot(v.kids[i]));
    Widen(s, s', p, n, f.off, k, Foot(v.kids[i]), FootKids(v.kids));
    FootSame(v.kids, i, kid);
    var cells, cells', kids := Load(s, p, n), Load(s', p, n), v.kids[i := kid];
    forall j | 0 <= j < |kids| ensures HoldsField(env, s'.heap, cells', d, kids[j], j) {
      if j == i {
        LoadPart(s', p, n, f.off, k);
      } else {
        FieldElsewhere(env, s, s', p, v, i, j);
      }
    }
  }

  // ----- from the stored value to the object around it -----

  lemma InlineKept(env: Env, s: State, s': State, at: Pointer, kind: Kind, o: Obj)
    requires WfEnv(env) && ObjectAt(env, s, at, kind, o) && o.loc.Inline? && o.val.ty in env.types
    requires OnlyInside(s, s', at, env.types[o.val.ty].layout.size, FootKids(o.val.kids))
    ensures ValidKind(kind) && env.types[o.val.ty].layout.size <= StorageSize(kind) && 0 < DynSize(kind)
    ensures Outside(at, FootKids(o.val.kids))
    ensures Readable(s', at, DynSize(kind))
    ensures SameOutside(Load(s, at, DynSize(kind)), Load(s', at, DynSize(kind)), 0, env.types[o.val.ty].layout.size)
  {
    hide HoldsObject, HoldsValue, OnlyInside, WfEnv, Load, Readable, Foot, FootKids, StorageShape, Unique;
    StorageOf(env, s, at, kind, o);
    InlineFits(env, s.heap, Load(s, at, StorageSize(kind)), kind, o);
    FootParts(o);
    assert PointerAdd(at, 0) == at;
    LoadOutside(s, s', at, DynSize(kind), 0, env.types[o.val.ty].layout.size, FootKids(o.val.kids));
  }

  /** A change inside the block of an object, seen from the object itself. */
  lemma InsideBlock(s: State, s': State, h: nat, n: nat, kids: multiset<nat>, at: Pointer, k: nat)
    requires OnlyInside(s, s', At(Heap(h), 0), n, kids) && Outside(at, kids + multiset{h}) && Readable(s, at, k)
    ensures Readable(s', at, k) && Load(s', at, k) == Load(s, at, k)
    ensures OnlyInside(s, s', at, k, kids + multiset{h})
    ensures h in s.heap && h !in kids ==> h in s'.heap && |s'.heap[h].cells| == |s.heap[h].cells|
  {}

  /** A zero-sized value has no cells to change. */
  lemma InsideNothing(s: State, s': State, p: Pointer, kids: multiset<nat>, at: Pointer, k: nat)
    requires OnlyInside(s, s', p, 0, kids) && Outside(at, kids) && Readable(s, at, k)
    ensures Readable(s', at, k) && Load(s', at, k) == Load(s, at, k) && OnlyInside(s, s', at, k, kids)
  {}

  lemma BoxKept(env: Env, s: State, s': State, at: Pointer, kind: Kind, o: Obj)
    requires WfEnv(env) && ObjectAt(env, s, at, kind, o) && !o.loc.Inline? && o.val.ty in env.types
    requires OnlyInside(s, s', Storage.PlaceOf(env, at, o), env.types[o.val.ty].layout.size, FootKids(o.val.kids))
    ensures ValidKind(kind) && Readable(s, at, DynSize(kind))
    ensures Readable(s', at, DynSize(kind)) && Load(s', at, DynSize(kind)) == Load(s, at, DynSize(kind))
    ensures o.loc.OnHeap? ==> o.loc.h in s.heap && o.loc.h in s'.heap
    ensures o.loc.OnHeap? ==> s'.heap[o.loc.h].layout == s.heap[o.loc.h].layout
    ensures o.loc.OnHeap? ==> |s'.heap[o.loc.h].cells| == |s.heap[o.loc.h].cells|
    ensures OnlyInside(s, s', at, DynSize(kind), Foot(o))
  {
    hide HoldsObject, HoldsValue, WfEnv, FootKids, Foot, Unique, VtableFor, DynSize, StorageSize, TagOff, Permitted,
         StaysInline, OnlyInside, Load, Readable, Outside;
    StorageOf(env, s, at, kind, o);
    FootParts(o);
    HereApart(o);
    LayoutsKept(s, s', Storage.PlaceOf(env, at, o), env.types[o.val.ty].layout.size, FootKids(o.val.kids));
    match o.loc
    case OnHeap(h) =>
      InsideBlock(s, s', h, env.types[o.val.ty].layout.size, FootKids(o.val.kids), at, DynSize(kind));
    case Nowhere =>
      assert Foot(o) == FootKids(o.val.kids);
      InsideNothing(s, s', Storage.PlaceOf(env, at, o), FootKids(o.val.kids), at, DynSize(kind));
  }

  lemma LayoutsKept(s: State, s': State, p: Pointer, n: nat, foot: multiset<nat>)
    requires OnlyInside(s, s', p, n, foot)
    ensures forall h :: h in s.heap ==> h in s'.heap && s'.heap[h].layout == s.heap[h].layout
  {}

  /** The storage, its discriminant and the vtable reference are unchanged. */
  lemma ShapeKept(env: Env, h: HeapMap, h': HeapMap, c: seq<Cell>, c': seq<Cell>, kind: Kind, o: Obj, v: Val)
    requires ValidKind(kind) && ObjectShape(env, h, c, kind, o) && v.ty == o.val.ty && |c'| == |c|
    requires o.loc.Inline? ==> env.types[v.ty].layout.size <= StorageSize(kind)
    requires o.loc.Inline? ==> SameOutside(c, c', 0, env.types[v.ty].layout.size)
    requires !o.loc.Inline? ==> c' == c
    requires o.loc.OnHeap? ==> o.loc.h in h && o.loc.h in h' && h'[o.loc.h].layout == h[o.loc.h].layout
    requires o.loc.OnHeap? ==> |h'[o.loc.h].cells| == |h[o.loc.h].cells|
    ensures ObjectShape(env, h', c', kind, o.(val := v))
  {
    hide VtableFor, Permitted;
    if o.loc.Inline? {
      var k, off, n := env.types[v.ty].layout.size, VtableOff(kind), StorageSize(kind);
      forall i | k <= i < |c| ensures c'[i] == c[i] {
        assert c'[0 + k..][i - k] == c[0 + k..][i - k];
      }
      assert c'[off..off + WORD] == c[off..off + WORD];
    }
  }

  /** The value of an object was used in place: the object around it is the same object. */
  lemma Around(env: Env, s: State, s': State, at: Pointer, kind: Kind, o: Obj, v: Val)
    requires WfEnv(env) && ObjectAt(env, s, at, kind, o) && o.val.ty in env.types
    requires v.ty == o.val.ty && FootKids(v.kids) == FootKids(o.val.kids)
    requires ValueAt(env, s', Storage.PlaceOf(env, at, o), v)
    requires OnlyInside(s, s', Storage.PlaceOf(env, at, o), env.types[v.ty].layout.size, FootKids(v.kids))
    ensures ObjectAt(env, s', at, kind, o.(val := v))
    ensures OnlyInside(s, s', at, DynSize(kind), Foot(o)) && Foot(o.(val := v)) == Foot(o)
  {
    hide HoldsValue, OnlyInside, WfEnv, DynSize, Load, Readable, Foot, FootKids, ObjectShape, Unique, Outside, ValueAt;
    var n, k, p := DynSize(kind), env.types[v.ty].layout.size, Storage.PlaceOf(env, at, o);
    FootParts(o);
    FootParts(o.(val := v));
    if o.loc.Inline? {
      assert PointerAdd(at, 0) == at;
      InlineKept(env, s, s', at, kind, o);
      Widen(s, s', at, n, 0, k, FootKids(v.kids), Foot(o));
    } else {
      BoxKept(env, s, s', at, kind, o);
    }
    ShapeKept(env, s.heap, s'.heap, Load(s, at, n), Load(s', at, n), kind, o, v);
    FromParts(env, s', at, kind, o.(val := v));
  }

  lemma Unchanged(env: Env, s: State, at: Pointer, kind: Kind, o: Obj)
    requires WfEnv(env) && ObjectAt(env, s, at, kind, o)
    ensures OnlyInside(s, s, at, DynSize(kind), Foot(o))
  {}

  // ----- the operations -----

  function BytesIn(cells: seq<Cell>): seq<byte>
    requires forall i :: 0 <= i < |cells| ==> cells[i].Byte?
  {
    seq(|cells|, i requires 0 <= i < |cells| => cells[i].v)
  }

  lemma PlainBytes(env: Env, s: State, p: Pointer, v: Val)
    requires WfEnv(env) && ValueAt(env, s, p, v)
    ensures var k := env.types[v.ty].plain;
      Readable(s, p, k) && (forall i :: 0 <= i < k ==> Load(s, p, k)[i].Byte?) && BytesIn(Load(s, p, k)) == v.data
  {
    hide WfEnv, WfType, HoldsField;
    KnownType(env, v.ty);
    LoadStart(s, p, env.types[v.ty].layout.size, env.types[v.ty].plain);
  }

  /** What using an object in place guarantees: only the object changed, and it is the object
      the client's view of it says. */
  ghost predicate Used(env: Env, s: State, s': State, at: Pointer, kind: Kind, o: Obj, o': Obj)
    requires WfEnv(env) && ValidKind(kind)
  {
    && ObjectAt(env, s', at, kind, o') && SamePlaces(o, o') && Foot(o') == Foot(o)
    && OnlyInside(s, s', at, DynSize(kind), Foot(o))
  }

  /** The function a vtable entry names, applied to the storage: `as_ref`, `as_mut` or
      `as_pinned_mut` at the entry's type, then the method of that type. */
  method RunEntry(mem: Memory, env: Env, at: Pointer, kind: Kind, e: Entry, args: seq<Datum>, ghost o: Obj)
    returns (r: Datum, ghost o': Obj)
    requires mem.Valid() && WfEnv(env) && ObjectAt(env, mem.cur, at, kind, o)
    requires e.ty == o.val.ty && e.kind == kind && e.ty in env.types && e.index < |env.types[e.ty].methods|
    requires e.receiver == env.types[e.ty].methods[e.index].receiver
    modifies mem
    ensures mem.Valid() && mem.trace == old(mem.trace)
    ensures Used(env, old(mem.cur), mem.cur, at, kind, o, o')
    ensures var step := env.types[o.val.ty].methods[e.index].step(o.val.data, args);
      r == step.1 && o' == o.(val := o.val.(data := step.0))
  {
    hide *;
    StorageOf(env, mem.cur, at, kind, o);
    var p := Storage.AsMut(mem, env, e.kind, at, e.ty, o);
    StoredValue(env, mem.cur, at, kind, o);
    PlainBytes(env, mem.cur, p, o.val);
    var step := env.types[e.ty].methods[e.index].step(BytesIn(Load(mem.cur, p, env.types[e.ty].plain)), args);
    StepKeepsSize(env, o, e.index, args);
    r := step.1;
    match e.receiver
    case ByRef =>
      Same(env, mem.cur, at, kind, o);
      o' := o;
    case ByMut | ByPin =>
      o' := Overwrite(mem, env, at, kind, p, step.0, o);
  }

  lemma StepKeepsSize(env: Env, o: Obj, m: nat, args: seq<Datum>)
    requires WfEnv(env) && o.val.ty in env.types && m < |env.types[o.val.ty].methods|
    requires |o.val.data| == env.types[o.val.ty].plain
    ensures |env.types[o.val.ty].methods[m].step(o.val.data, args).0| == env.types[o.val.ty].plain
    ensures env.types[o.val.ty].methods[m].receiver.ByRef? ==>
      env.types[o.val.ty].methods[m].step(o.val.data, args).0 == o.val.data
  {
    assert WfType(env, env.types[o.val.ty]);
    assert WfMethod(env.types[o.val.ty], env.types[o.val.ty].methods[m]);
  }

  /** Writing the plain bytes of the value of an object through a reference to it. */
  method Overwrite(mem: Memory, env: Env, at: Pointer, kind: Kind, p: Pointer, data: seq<byte>, ghost o: Obj)
    returns (ghost o': Obj)
    requires mem.Valid() && WfEnv(env) && ObjectAt(env, mem.cur, at, kind, o)
    requires o.val.ty in env.types && p == Storage.PlaceOf(env, at, o) && |data| == env.types[o.val.ty].plain
    modifies mem
    ensures mem.Valid() && mem.trace == old(mem.trace)
    ensures o' == o.(val := o.val.(data := data)) && Used(env, old(mem.cur), mem.cur, at, kind, o, o')
  {
    StoredValue(env, mem.cur, at, kind, o);
    WritePlain(env, mem.cur, p, o.val, data);
    mem.Write(p, BytesAsCells(data));
    o' := o.(val := o.val.(data := data));
    KidsStay(o, o');
    Around(env, old(mem.cur), mem.cur, at, kind, o, o'.val);
  }

  lemma KidsStay(o: Obj, o': Obj)
    requires o'.loc == o.loc && o'.val.ty == o.val.ty && o'.val.kids == o.val.kids
    ensures SamePlaces(o, o')
  {
    forall i | 0 <= i < |o.val.kids| { SamePlacesRefl(o.val.kids[i]); }
  }

  lemma KidStays(o: Obj, i: nat, kid: Obj)
    requires i < |o.val.kids| && SamePlaces(o.val.kids[i], kid)
    ensures SamePlaces(o, o.(val := o.val.(kids := o.val.kids[i := kid])))
  {
    hide SamePlaces;
    forall j | 0 <= j < |o.val.kids| { SamePlacesRefl(o.val.kids[j]); }
    SamePlacesOf(o, o.(val := o.val.(kids := o.val.kids[i := kid])));
  }

  lemma SamePlacesOf(o: Obj, o': Obj)
    requires o'.loc == o.loc && o'.val.ty == o.val.ty && |o'.val.kids| == |o.val.kids|
    requires forall i :: 0 <= i < |o.val.kids| ==> SamePlaces(o.val.kids[i], o'.val.kids[i])
    ensures SamePlaces(o, o')
  {}

  /** The operation itself, on the object at `at`: a call goes through the vtable, a downcast
      compares type ids. */
  method ActHere(mem: Memory, env: Env, at: Pointer, kind: Kind, act: Action, ghost o: Obj)
    returns (out: Outcome, ghost o': Obj)
    requires mem.Valid() && WfEnv(env) && ObjectAt(env, mem.cur, at, kind, o)
    modifies mem
    ensures mem.Valid() && mem.trace == old(mem.trace)
    ensures Used(env, old(mem.cur), mem.cur, at, kind, o, o')
    ensures o.val.ty in env.types && (Abs(o'.val), out) == Client.Act(env, Abs(o.val), act)
    ensures act.DowncastRef? ==> o' == o && out == if act.ty == o.val.ty then Read(o.val.data) else NotA
    ensures act.DowncastMut? ==>
      (out == Written <==> act.ty == o.val.ty && |act.data| == env.types[o.val.ty].plain)
      && o' == if out == Written then o.(val := o.val.(data := act.data)) else o
    ensures act.DowncastMut? && act.ty != o.val.ty && act.ty in env.types && |act.data| == env.types[act.ty].plain ==>
      out == NotA
    ensures act.Call? ==>
      if act.index < |env.types[o.val.ty].methods| then
        var step := env.types[o.val.ty].methods[act.index].step(o.val.data, act.args);
        out == Returned(step.1) && o' == o.(val := o.val.(data := step.0))
      else out == Rejected && o' == o
  {
    hide HoldsObject, OnlyInside, DynSize, Readable, Load, WfEnv, Foot, FootKids, Unique, Outside;
    StorageOf(env, mem.cur, at, kind, o);
    StoredValue(env, mem.cur, at, kind, o);
    Unchanged(env, mem.cur, at, kind, o);
    SamePlacesRefl(o);
    var vtable := VtableAt(mem.cur, kind, at).value;
    o' := o;
    match act
    case Call(m, args) =>
      if m < |vtable.entries| {
        var r;
        r, o' := RunEntry(mem, env, at, kind, vtable.entries[m], args, o);
        out := Returned(r);
      } else {
        out := Rejected;
      }
    case DowncastRef(ty) =>
      if vtable.typeId == ty {
        var p := Storage.AsMut(mem, env, kind, at, ty, o);
        PlainBytes(env, mem.cur, p, o.val);
        out := Read(BytesIn(Load(mem.cur, p, env.types[ty].plain)));
      } else {
        out := NotA;
      }
    case DowncastMut(ty, data) =>
      if ty !in env.types || |data| != env.types[ty].plain {
        out := Rejected;
      } else if vtable.typeId == ty {
        var p := Storage.AsMut(mem, env, kind, at, ty, o);
        o' := Overwrite(mem, env, at, kind, p, data, o);
        out := Written;
      } else {
        out := NotA;
      }
  }

  /** The same on an object nested at any depth, reached by downcasts and fields. */
  method Access(mem: Memory, env: Env, at: Pointer, kind: Kind, path: seq<Step>, act: Action, ghost o: Obj)
    returns (out: Outcome, ghost o': Obj)
    requires mem.Valid() && WfEnv(env) && ObjectAt(env, mem.cur, at, kind, o)
    modifies mem
    ensures mem.Valid() && mem.trace == old(mem.trace)
    ensures Used(env, old(mem.cur), mem.cur, at, kind, o, o')
    ensures (Abs(o'.val), out) == Client.Access(env, Abs(o.val), path, act)
    decreases path
  {
    hide *;
    StorageOf(env, mem.cur, at, kind, o);
    Same(env, mem.cur, at, kind, o);
    AccessCases(env, o.val, path, act);
    if path == [] {
      out, o' := ActHere(mem, env, at, kind, act, o);
      return;
    }
    var ty, i := path[0].ty, path[0].field;
    o' := o;
    if ty !in env.types || i >= |env.types[ty].fields| {
      out := Rejected;
    } else if VtableAt(mem.cur, kind, at).value.typeId != ty {
      out := NotA;
    } else {
      var p := Storage.AsMut(mem, env, kind, at, ty, o);
      var f := env.types[ty].fields[i];
      StoredValue(env, mem.cur, at, kind, o);
      FieldAt(env, mem.cur, p, o.val, i);
      ghost var kid;
      out, kid := Access(mem, env, PointerAdd(p, f.off), f.kind, path[1..], act, o.val.kids[i]);
      o' := o.(val := o.val.(kids := o.val.kids[i := kid]));
      NestedUse(env, old(mem.cur), mem.cur, at, kind, o, i, kid);
      AccessNested(env, o.val, path, act, kid, out);
    }
  }

  lemma Same(env: Env, s: State, at: Pointer, kind: Kind, o: Obj)
    requires WfEnv(env) && ObjectAt(env, s, at, kind, o)
    ensures ValidKind(kind) && Used(env, s, s, at, kind, o, o)
    ensures o.val.ty in env.types && |o.val.kids| == |env.types[o.val.ty].fields|
    ensures VtableFor(env, o.val.ty, kind).typeId == o.val.ty
  {
    hide HoldsObject, OnlyInside, DynSize, Readable, Load, WfEnv;
    Unchanged(env, s, at, kind, o);
    SamePlacesRefl(o);
    StoredValue(env, s, at, kind, o);
  }

  lemma AccessCases(env: Env, v: Val, path: seq<Step>, act: Action)
    requires v.ty in env.types
    ensures path == [] ==> Client.Access(env, Abs(v), path, act) == Client.Act(env, Abs(v), act)
    ensures path != [] ==>
      var ty, i := path[0].ty, path[0].field;
      if ty !in env.types
        || i >= |env.types[ty].fields| then Client.Access(env, Abs(v), path, act) == (Abs(v), Rejected)
      else v.ty != ty ==> Client.Access(env, Abs(v), path, act) == (Abs(v), NotA)
  {}

  lemma AccessNested(env: Env, v: Val, path: seq<Step>, act: Action, kid: Obj, out: Outcome)
    requires path != [] && v.ty == path[0].ty && v.ty in env.types
    requires path[0].field < |env.types[v.ty].fields| && path[0].field < |v.kids|
    requires (Abs(kid.val), out) == Client.Access(env, Abs(v.kids[path[0].field].val), path[1..], act)
    ensures Client.Access(env, Abs(v), path, act) == (Abs(v.(kids := v.kids[path[0].field := kid])), out)
  {
    var i := path[0].field;
    assert Abs(v).kids[i] == Abs(v.kids[i].val);
    assert Abs(v.(kids := v.kids[i := kid])) == Abs(v).(kids := Abs(v).kids[i := Abs(kid.val)]);
  }

  /** Using a field of the value of an object is using the object. */
  lemma NestedUse(env: Env, s: State, s': State, at: Pointer, kind: Kind, o: Obj, i: nat, kid: Obj)
    requires WfEnv(env) && ObjectAt(env, s, at, kind, o) && o.val.ty in env.types
    requires i < |o.val.kids| && i < |env.types[o.val.ty].fields|
    requires ValidKind(env.types[o.val.ty].fields[i].kind)
    requires var f := env.types[o.val.ty].fields[i];
      Used(env, s, s', PointerAdd(Storage.PlaceOf(env, at, o), f.off), f.kind, o.val.kids[i], kid)
    ensures Used(env, s, s', at, kind, o, o.(val := o.val.(kids := o.val.kids[i := kid])))
  {
    hide HoldsObject, HoldsValue, OnlyInside, DynSize, Readable, Load, WfEnv, Foot, FootKids, Unique, Outside,
         ObjectAt, ValueAt;
    StoredValue(env, s, at, kind, o);
    WriteField(env, s, s', Storage.PlaceOf(env, at, o), o.val, i, kid);
    KidStays(o, i, kid);
    Around(env, s, s', at, kind, o, o.val.(kids := o.val.kids[i := kid]));
  }
}
