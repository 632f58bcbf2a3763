/** Concrete types, the values that live in memory, and what it means for cells to hold one.

    A value may own `DynObject`s, so a value is a tree. `Val`/`Obj` is the tree annotated with
    the place of every node; it is ghost, and the heap blocks a value owns are read off it. */
module Values {
  import opened Wrappers
  import opened Data
  import opened Layout
  import opened Memory

  /** A trait method of a concrete type: new plain bytes and result from old bytes and arguments.
      What the method reaches through its arguments is part of them and of its result. */
  datatype Method = Method(receiver: Receiver, step: (seq<byte>, seq<Datum>) -> (seq<byte>, Datum))

  /** A field of type `DynObject<dyn Trait, S>` at a fixed offset. */
  datatype Field = Field(off: nat, kind: Kind)

  /** A concrete type: `plain` bytes of its own at offset 0, then the objects it owns.
      `userDrop` says it implements `Drop`; `needsDrop` is `core::mem::needs_drop`. */
  datatype TypeDesc = TypeDesc(layout: Layout, plain: nat, fields: seq<Field>,
                               userDrop: bool, needsDrop: bool, methods: seq<Method>)

  /** The types of the program, keyed by `TypeId`, the number of methods of the trait, and
      whether the `alloc` feature is on. */
  datatype Env = Env(types: map<TypeId, TypeDesc>, arity: nat, alloc: bool)

  function FieldSize(f: Field): nat
    requires ValidKind(f.kind)
  {
    DynSize(f.kind)
  }

  ghost predicate Disjoint(f: Field, g: Field)
    requires ValidKind(f.kind) && ValidKind(g.kind)
  {
    f.off + FieldSize(f) <= g.off || g.off + FieldSize(g) <= f.off
  }

  ghost predicate WfField(d: TypeDesc, f: Field) {
    && ValidKind(f.kind)
    && d.plain <= f.off && f.off + DynSize(f.kind) <= d.layout.size
    && Aligned(f.off, DynAlign(f.kind)) && DynAlign(f.kind) <= d.layout.align
  }

  ghost predicate WfMethod(d: TypeDesc, m: Method) {
    forall s, args :: |s| == d.plain ==>
      |m.step(s, args).0| == d.plain && (m.receiver.ByRef? ==> m.step(s, args).0 == s)
  }

  ghost predicate WfType(env: Env, d: TypeDesc) {
    && ValidLayout(d.layout) && d.plain <= d.layout.size
    && (forall i :: 0 <= i < |d.fields| ==> WfField(d, d.fields[i]) && StorageExists(env, d.fields[i].kind))
    && (forall i, j :: 0 <= i < |d.fields| && 0 <= j < |d.fields| && i != j ==> Disjoint(d.fields[i], d.fields[j]))
    // `needs_drop` may be true for nothing, never false for something
    && (d.userDrop || d.fields != [] ==> d.needsDrop)
    && |d.methods| == env.arity
    && (forall i :: 0 <= i < |d.methods| ==> WfMethod(d, d.methods[i]))
  }

  ghost predicate WfEnv(env: Env) {
    forall ty :: ty in env.types ==> WfType(env, env.types[ty])
  }

  /** The `Box` storage exists only with the `alloc` feature. */
  predicate StorageExists(env: Env, k: Kind) { k.Box? ==> env.alloc }

  /** Whether `S::new::<T>` compiles: the constant assertion of `Raw`, and the storage exists. */
  predicate Permitted(env: Env, k: Kind, t: Layout) {
    match k
    case Raw(s, a) => CanStore(s, a, t)
    case Box => env.alloc
    case RawOrBox(s, a) => env.alloc || CanStore(s, a, t)
  }

  // ----- located trees -----

  datatype Loc = Inline | OnHeap(h: nat) | Nowhere

  datatype Val = Val(tok: nat, ty: TypeId, data: seq<byte>, kids: seq<Obj>)

  datatype Obj = Obj(loc: Loc, val: Val)

  /** The block an object's own value is in, if any. */
  ghost function Here(o: Obj): multiset<nat> {
    if o.loc.OnHeap? then multiset{o.loc.h} else multiset{}
  }

  /** The heap blocks owned by an object, with multiplicity. */
  ghost function Foot(o: Obj): multiset<nat> { FootKids(o.val.kids) + Here(o) }

  ghost function FootKids(kids: seq<Obj>): multiset<nat> {
    if kids == [] then multiset{} else FootKids(kids[..|kids| - 1]) + Foot(kids[|kids| - 1])
  }

  ghost predicate Unique(m: multiset<nat>) { forall h :: m[h] <= 1 }

  // ----- cells holding values -----

  function BytesAsCells(data: seq<byte>): (r: seq<Cell>)
    ensures |r| == |data|
  {
    seq(|data|, i requires 0 <= i < |data| => Byte(data[i]))
  }

  /** The vtable built by `<dyn Trait as Vtable<T>>::vtable::<S>()`. */
  function VtableFor(env: Env, ty: TypeId, kind: Kind): Vtable
    requires ty in env.types
  {
    var d := env.types[ty];
    Vtable(if d.needsDrop then Some(ty) else None, d.layout, ty,
           seq(|d.methods|, i requires 0 <= i < |d.methods| => Entry(ty, kind, d.methods[i].receiver, i)))
  }

  /** `cells` hold the value `v` of its type, all of the objects it owns included. */
  ghost predicate HoldsValue(env: Env, heap: HeapMap, cells: seq<Cell>, v: Val)
    requires WfEnv(env)
    decreases v, 0
  {
    && v.ty in env.types
    && var d := env.types[v.ty];
    && |cells| == d.layout.size && |v.data| == d.plain && |v.kids| == |d.fields|
    && cells[..d.plain] == BytesAsCells(v.data)
    && forall i :: 0 <= i < |v.kids| ==> HoldsField(env, heap, cells, d, v.kids[i], i)
  }

  ghost predicate HoldsField(env: Env, heap: HeapMap, cells: seq<Cell>, d: TypeDesc, o: Obj, i: nat)
    requires WfEnv(env) && WfType(env, d) && i < |d.fields| && |cells| == d.layout.size
    decreases o, 1
  {
    var f := d.fields[i];
    assert WfField(d, f);
    HoldsObject(env, heap, cells[f.off..f.off + DynSize(f.kind)], f.kind, o)
  }

  /** The cells of a `DynObject<dyn Trait, kind>` holding `o`. */
  ghost predicate HoldsObject(env: Env, heap: HeapMap, cells: seq<Cell>, kind: Kind, o: Obj)
    requires WfEnv(env) && ValidKind(kind)
    decreases o, 0
  {
    && ObjectShape(env, heap, cells, kind, o)
    && HoldsValue(env, heap, ValueCells(env, heap, cells, o), o.val)
  }

  /** The cells of the value of an object, given those of the object, storage or box. */
  ghost function ValueCells(env: Env, heap: HeapMap, cells: seq<Cell>, o: Obj): seq<Cell> {
    match o.loc
    case Inline =>
      if o.val.ty in env.types && env.types[o.val.ty].layout.size <= |cells|
      then cells[..env.types[o.val.ty].layout.size] else []
    case OnHeap(h) => if h in heap then heap[h].cells else []
    case Nowhere => []
  }

  /** The vtable reference is the one built for the stored type, and the storage fits `o`. */
  ghost predicate ObjectShape(env: Env, heap: HeapMap, cells: seq<Cell>, kind: Kind, o: Obj)
    requires ValidKind(kind)
  {
    && |cells| == DynSize(kind)
    && o.val.ty in env.types
    && ReadPointer(cells[VtableOff(kind)..VtableOff(kind) + WORD]) == Some(Static(VtableFor(env, o.val.ty, kind)))
    && StorageShape(env, heap, cells[..StorageSize(kind)], kind, o)
  }

  /** Whether a value of layout `t` is kept in the storage itself. */
  predicate StaysInline(kind: Kind, t: Layout) {
    match kind
    case Raw(_, _) => true
    case Box => false
    case RawOrBox(s, a) => CanStore(s, a, t)
  }

  // Discriminants of `RawOrBoxInner`
  const RAW_TAG: Cell := Byte(0)
  const BOX_TAG: Cell := Byte(1)

  /** A storage constructed with a value of `o`'s type, whatever has become of the value. */
  ghost predicate StorageShape(env: Env, heap: HeapMap, cells: seq<Cell>, kind: Kind, o: Obj)
    requires ValidKind(kind)
  {
    && |cells| == StorageSize(kind)
    && o.val.ty in env.types
    && Permitted(env, kind, env.types[o.val.ty].layout)
    && (o.loc.Inline? <==> StaysInline(kind, env.types[o.val.ty].layout))
    && (kind.RawOrBox? ==> cells[TagOff(kind.size, kind.align)] == if o.loc.Inline? then RAW_TAG else BOX_TAG)
    && (!o.loc.Inline? ==> BoxShape(env, heap, cells[..WORD], o))
  }

  /** The pointer of an owning box, and the block it owns unless the type is zero-sized. */
  ghost predicate BoxShape(env: Env, heap: HeapMap, cells: seq<Cell>, o: Obj)
    requires o.val.ty in env.types
  {
    var t := env.types[o.val.ty].layout;
    if t.size == 0 then o.loc == Nowhere && ReadPointer(cells) == Some(Dangling(t.align))
    else
      && o.loc.OnHeap? && ReadPointer(cells) == Some(At(Heap(o.loc.h), 0))
      && o.loc.h in heap && heap[o.loc.h].layout == t && |heap[o.loc.h].cells| == t.size
  }

  ghost predicate HoldsStored(env: Env, heap: HeapMap, cells: seq<Cell>, kind: Kind, o: Obj)
    requires WfEnv(env) && ValidKind(kind)
  {
    StorageShape(env, heap, cells, kind, o) && HoldsValue(env, heap, ValueCells(env, heap, cells, o), o.val)
  }

  ghost predicate HoldsBoxed(env: Env, heap: HeapMap, cells: seq<Cell>, o: Obj)
    requires WfEnv(env) && o.val.ty in env.types
  {
    |cells| == WORD && BoxShape(env, heap, cells, o) && HoldsValue(env, heap, ValueCells(env, heap, cells, o), o.val)
  }

  lemma ValueShape(env: Env, heap: HeapMap, cells: seq<Cell>, v: Val)
    requires WfEnv(env) && HoldsValue(env, heap, cells, v)
    ensures v.ty in env.types && |cells| == env.types[v.ty].layout.size
    ensures |v.data| == env.types[v.ty].plain && |v.kids| == |env.types[v.ty].fields|
    ensures cells[..env.types[v.ty].plain] == BytesAsCells(v.data)
  {}

  lemma KnownType(env: Env, ty: TypeId)
    requires WfEnv(env) && ty in env.types
    ensures WfType(env, env.types[ty])
    ensures env.types[ty].plain <= env.types[ty].layout.size
  {}

  lemma FieldsApart(env: Env, ty: TypeId, i: nat, j: nat)
    requires WfEnv(env) && ty in env.types && i < |env.types[ty].fields| && j < |env.types[ty].fields| && i != j
    ensures ValidKind(env.types[ty].fields[i].kind) && ValidKind(env.types[ty].fields[j].kind)
    ensures Disjoint(env.types[ty].fields[i], env.types[ty].fields[j])
  {
    var d := env.types[ty];
    assert WfType(env, d);
    assert WfField(d, d.fields[i]) && WfField(d, d.fields[j]);
  }

  lemma FieldPlace(env: Env, ty: TypeId, i: nat)
    requires WfEnv(env) && ty in env.types && i < |env.types[ty].fields|
    ensures WfField(env.types[ty], env.types[ty].fields[i]) && StorageExists(env, env.types[ty].fields[i].kind)
    ensures ValidKind(env.types[ty].fields[i].kind)
  {
    assert WfType(env, env.types[ty]);
  }

  lemma FieldHeld(env: Env, heap: HeapMap, cells: seq<Cell>, v: Val, i: nat)
    requires WfEnv(env) && HoldsValue(env, heap, cells, v) && i < |env.types[v.ty].fields|
    ensures i < |v.kids| && |cells| == env.types[v.ty].layout.size
    ensures var f := env.types[v.ty].fields[i];
      WfField(env.types[v.ty], f) && HoldsObject(env, heap, cells[f.off..f.off + DynSize(f.kind)], f.kind, v.kids[i])
  {
    hide HoldsObject;
    FieldPlace(env, v.ty, i);
    assert HoldsField(env, heap, cells, env.types[v.ty], v.kids[i], i);
  }

  lemma InlineFits(env: Env, heap: HeapMap, cells: seq<Cell>, kind: Kind, o: Obj)
    requires ValidKind(kind) && StorageShape(env, heap, cells, kind, o)
    ensures |cells| == StorageSize(kind) && o.val.ty in env.types
    ensures o.loc.Inline? ==> env.types[o.val.ty].layout.size <= StorageSize(kind)
  {}

  // ----- footprints -----

  lemma {:induction false} FootPrefix(kids: seq<Obj>, i: nat, j: nat)
    requires i <= j <= |kids|
    ensures FootKids(kids[..i]) <= FootKids(kids[..j])
    decreases j
  {
    if i < j {
      FootPrefix(kids, i, j - 1);
      assert kids[..j][..j - 1] == kids[..j - 1];
    }
  }

  lemma FootOfKid(kids: seq<Obj>, i: nat)
    requires i < |kids|
    ensures FootKids(kids[..i + 1]) == FootKids(kids[..i]) + Foot(kids[i])
    ensures FootKids(kids[..i]) + Foot(kids[i]) <= FootKids(kids)
  {
    assert kids[..i + 1][..i] == kids[..i];
    FootPrefix(kids, i + 1, |kids|);
    assert kids[..|kids|] == kids;
  }

  /** Kids of a tree without duplicate blocks own disjoint sets of blocks. */
  lemma FootDisjoint(kids: seq<Obj>, i: nat, j: nat)
    requires i < j < |kids| && Unique(FootKids(kids))
    ensures Foot(kids[i]) !! Foot(kids[j])
    ensures FootKids(kids[..j]) !! Foot(kids[j])
  {
    FootOfKid(kids, i);
    FootOfKid(kids, j);
    FootPrefix(kids, i + 1, j);
    forall h ensures FootKids(kids[..j])[h] == 0 || Foot(kids[j])[h] == 0 {
      assert FootKids(kids)[h] <= 1;
    }
  }

  lemma {:induction false} FootSame(kids: seq<Obj>, i: nat, kid: Obj)
    requires i < |kids| && Foot(kid) == Foot(kids[i])
    ensures FootKids(kids[i := kid]) == FootKids(kids)
    decreases |kids|
  {
    var last := |kids| - 1;
    if i < last {
      FootSame(kids[..last], i, kid);
      assert kids[i := kid][..last] == kids[..last][i := kid];
    } else {
      assert kids[i := kid][..last] == kids[..last];
    }
  }

  lemma FootApart(kids: seq<Obj>, i: nat)
    requires i < |kids| && Unique(FootKids(kids))
    ensures FootKids(kids[..i]) !! Foot(kids[i])
  {
    FootOfKid(kids, i);
    forall h ensures FootKids(kids[..i])[h] == 0 || Foot(kids[i])[h] == 0 {
      assert FootKids(kids)[h] <= 1;
    }
  }

  lemma HereApart(o: Obj)
    requires Unique(Foot(o))
    ensures Here(o) !! FootKids(o.val.kids)
  {
    if o.loc.OnHeap? {
      assert Foot(o)[o.loc.h] <= 1;
    }
  }

  lemma UniqueSub(m: multiset<nat>, n: multiset<nat>)
    requires m <= n && Unique(n)
    ensures Unique(m)
  {}

  // ----- places -----

  /** The same values of the same types at the same places, at every depth; their bytes may differ. */
  ghost predicate SamePlaces(o: Obj, o': Obj) {
    && o'.loc == o.loc && o'.val.ty == o.val.ty && |o'.val.kids| == |o.val.kids|
    && forall i :: 0 <= i < |o.val.kids| ==> SamePlaces(o.val.kids[i], o'.val.kids[i])
  }

  lemma {:induction false} SamePlacesRefl(o: Obj)
    ensures SamePlaces(o, o)
    decreases o
  {
    forall i | 0 <= i < |o.val.kids| { SamePlacesRefl(o.val.kids[i]); }
  }

  lemma {:induction false} SamePlacesTrans(a: Obj, b: Obj, c: Obj)
    requires SamePlaces(a, b) && SamePlaces(b, c)
    ensures SamePlaces(a, c)
    decreases a
  {
    forall i | 0 <= i < |a.val.kids| { SamePlacesTrans(a.val.kids[i], b.val.kids[i], c.val.kids[i]); }
  }

  // ----- frames -----

  ghost predicate SameOn(m: multiset<nat>, h1: HeapMap, h2: HeapMap) {
    forall h :: h in m && h in h1 ==> h in h2 && h1[h] == h2[h]
  }

  lemma SameOnLess(m: multiset<nat>, m': multiset<nat>, h1: HeapMap, h2: HeapMap)
    requires m <= m' && SameOn(m', h1, h2)
    ensures SameOn(m, h1, h2)
  {}

  lemma SameHere(o: Obj, h1: HeapMap, h2: HeapMap)
    requires SameOn(Foot(o), h1, h2)
    ensures o.loc.OnHeap? && o.loc.h in h1 ==> o.loc.h in h2 && h2[o.loc.h] == h1[o.loc.h]
  {}

  lemma FootParts(o: Obj)
    ensures Foot(o) == FootKids(o.val.kids) + Here(o)
    ensures FootKids(o.val.kids) <= Foot(o)
  {}

  /** Holding depends only on the blocks owned. */
  lemma {:induction false} FrameValue(env: Env, h1: HeapMap, h2: HeapMap, cells: seq<Cell>, v: Val)
    requires WfEnv(env) && HoldsValue(env, h1, cells, v) && SameOn(FootKids(v.kids), h1, h2)
    ensures HoldsValue(env, h2, cells, v)
    decreases v, 1
  {
    hide HoldsField, WfEnv, WfType, FootKids, SameOn;
    KnownType(env, v.ty);
    forall i | 0 <= i < |v.kids| ensures HoldsField(env, h2, cells, env.types[v.ty], v.kids[i], i) {
      FrameField(env, h1, h2, cells, v, i);
    }
  }

  lemma {:induction false} FrameField(env: Env, h1: HeapMap, h2: HeapMap, cells: seq<Cell>, v: Val, i: nat)
    requires WfEnv(env) && HoldsValue(env, h1, cells, v) && SameOn(FootKids(v.kids), h1, h2) && i < |v.kids|
    ensures WfType(env, env.types[v.ty]) && i < |env.types[v.ty].fields| && |cells| == env.types[v.ty].layout.size
    ensures HoldsField(env, h2, cells, env.types[v.ty], v.kids[i], i)
    decreases v, 0
  {
    hide HoldsValue, HoldsObject, WfEnv, WfType, Foot, FootKids, DynSize;
    ValueShape(env, h1, cells, v);
    KnownType(env, v.ty);
    FieldHeld(env, h1, cells, v, i);
    FootOfKid(v.kids, i);
    var f := env.types[v.ty].fields[i];
    FrameObject(env, h1, h2, cells[f.off..f.off + DynSize(f.kind)], f.kind, v.kids[i]);
  }

  lemma {:induction false} FrameObject(env: Env, h1: HeapMap, h2: HeapMap, cells: seq<Cell>, kind: Kind, o: Obj)
    requires WfEnv(env) && ValidKind(kind) && HoldsObject(env, h1, cells, kind, o) && SameOn(Foot(o), h1, h2)
    ensures HoldsObject(env, h2, cells, kind, o)
    decreases o, 2
  {
    hide HoldsValue, VtableFor, WfEnv, SameOn, Foot, FootKids;
    FootParts(o);
    SameOnLess(FootKids(o.val.kids), Foot(o), h1, h2);
    SameHere(o, h1, h2);
    FrameValue(env, h1, h2, ValueCells(env, h1, cells, o), o.val);
  }

  lemma FrameBoxed(env: Env, h1: HeapMap, h2: HeapMap, cells: seq<Cell>, o: Obj)
    requires WfEnv(env) && o.val.ty in env.types && HoldsBoxed(env, h1, cells, o) && SameOn(Foot(o), h1, h2)
    ensures HoldsBoxed(env, h2, cells, o)
  {
    hide HoldsValue, WfEnv, SameOn, Foot, FootKids;
    FootParts(o);
    SameOnLess(FootKids(o.val.kids), Foot(o), h1, h2);
    SameHere(o, h1, h2);
    FrameValue(env, h1, h2, ValueCells(env, h1, cells, o), o.val);
  }
}
