/** Alignment: `can_store` is exactly what in-place storage needs, and every value reached through
    an object, at any depth and in any storage, is aligned for its type. */
module Placement {
  import opened Layout
  import opened Memory
  import opened Values
  import Storage

  // ----- powers of two -----

  lemma MulAtLeast(x: nat, a: nat)
    requires x > 0
    ensures x * a >= a
  {}

  lemma MultipleIsAligned(q: nat, a: nat)
    requires a > 0
    ensures Aligned(q * a, a)
  {
    var n := q * a;
    var d, r := n / a, n % a;
    if d < q {
      assert (q - d) * a == q * a - d * a;
      MulAtLeast(q - d, a);
    } else if q < d {
      assert (d - q) * a == d * a - q * a;
      MulAtLeast(d - q, a);
    }
  }

  lemma AlignedIsMultiple(n: nat, a: nat) returns (q: nat)
    requires Aligned(n, a)
    ensures n == q * a
  {
    q := n / a;
  }

  /** Of two powers of two, the smaller divides the larger. */
  lemma {:induction false} SmallerDivides(a: nat, b: nat)
    requires IsPow2(a) && IsPow2(b) && a <= b
    ensures Aligned(b, a)
    decreases b
  {
    if a > 1 {
      SmallerDivides(a / 2, b / 2);
      var q := AlignedIsMultiple(b / 2, a / 2);
      assert b == q * a by { Double(q, a / 2); }
      MultipleIsAligned(q, a);
    }
  }

  lemma Double(q: nat, h: nat)
    ensures 2 * (q * h) == q * (2 * h)
  {}

  lemma AlignedTrans(n: nat, b: nat, a: nat)
    requires Aligned(n, b) && Aligned(b, a)
    ensures Aligned(n, a)
  {
    var q := AlignedIsMultiple(n, b);
    var r := AlignedIsMultiple(b, a);
    MulAssoc(q, r, a);
    MultipleIsAligned(q * r, a);
  }

  lemma MulSum(q: nat, r: nat, a: nat)
    ensures q * a + r * a == (q + r) * a
  {}

  lemma AlignedSum(n: nat, m: nat, a: nat)
    requires Aligned(n, a) && Aligned(m, a)
    ensures Aligned(n + m, a)
  {
    var q := AlignedIsMultiple(n, a);
    var r := AlignedIsMultiple(m, a);
    MulSum(q, r, a);
    MultipleIsAligned(q + r, a);
  }

  lemma RoundUpAligned(n: nat, a: nat)
    requires a > 0
    ensures Aligned(RoundUp(n, a), a)
  {
    if !Aligned(n, a) {
      assert RoundUp(n, a) == (n / a + 1) * a;
      MultipleIsAligned(n / a + 1, a);
    }
  }

  // ----- in-place storage -----

  /** A value of layout `t` at the start of a buffer of `size` bytes is in bounds and aligned,
      wherever an `align`-aligned `Raw` is put. */
  ghost predicate FitsEverywhere(size: nat, align: nat, t: Layout) {
    forall at: nat :: Aligned(at, align) ==> at + t.size <= at + size && Aligned(at, t.align)
  }

  /** `can_store` is exactly the condition in-place storage needs. */
  lemma CanStoreIsFits(size: nat, align: nat, t: Layout)
    requires IsPow2(align) && IsPow2(t.align)
    ensures CanStore(size, align, t) <==> FitsEverywhere(size, align, t)
  {
    hide IsPow2, Aligned;
    if CanStore(size, align, t) {
      SmallerDivides(t.align, align);
      forall at: nat | Aligned(at, align) ensures Aligned(at, t.align) { AlignedTrans(at, align, t.align); }
    }
    if FitsEverywhere(size, align, t) {
      OwnMultiple(align);
      assert align + t.size <= align + size && Aligned(align, t.align);
      AlignedAtLeast(align, t.align);
    }
  }

  lemma OwnMultiple(a: nat)
    requires IsPow2(a)
    ensures a > 0 && Aligned(a, a)
  {
    MultipleIsAligned(1, a);
  }

  lemma AlignedAtLeast(n: nat, a: nat)
    requires Aligned(n, a) && n > 0
    ensures a <= n
  {
    var q := AlignedIsMultiple(n, a);
    if q > 0 { MulAtLeast(q, a); }
  }

  lemma MulAssoc(k: nat, q: nat, a: nat)
    ensures k * (q * a) == (k * q) * a
  {}

  lemma MulSplit(k: nat, l: nat, a: nat)
    requires k < l
    ensures l * a == k * a + (l - k) * a
  {}

  lemma TimesAligned(k: nat, n: nat, a: nat)
    requires Aligned(n, a)
    ensures Aligned(k * n, a)
  {
    var q := AlignedIsMultiple(n, a);
    MulAssoc(k, q, a);
    MultipleIsAligned(k * q, a);
  }

  /** Where the `k`-th element of an array is. */
  function ElementAt(base: nat, stride: nat, k: nat): nat { base + k * stride }

  lemma ElementAligned(base: nat, stride: nat, k: nat, a: nat)
    requires Aligned(base, a) && Aligned(stride, a)
    ensures Aligned(ElementAt(base, stride, k), a)
  {
    hide Aligned;
    TimesAligned(k, stride, a);
    AlignedSum(base, k * stride, a);
  }

  /** Of two elements of an array, the earlier one ends before the later one starts. */
  lemma Apart(base: nat, stride: nat, k: nat, l: nat)
    requires k < l
    ensures ElementAt(base, stride, k) + stride <= ElementAt(base, stride, l)
  {
    MulSplit(k, l, stride);
    MulAtLeast(l - k, stride);
  }

  /** In an array of `Raw`s every element is aligned, and their buffers do not overlap. */
  lemma RawArray(base: nat, size: nat, align: nat, k: nat, l: nat)
    requires IsPow2(align) && Aligned(base, align) && k < l
    ensures Aligned(ElementAt(base, RawSize(size, align), k), align)
    ensures ElementAt(base, RawSize(size, align), k) + size <= ElementAt(base, RawSize(size, align), l)
  {
    hide ElementAt, RawSize, Aligned;
    StrideAligned(size, align);
    ElementAligned(base, RawSize(size, align), k, align);
    Apart(base, RawSize(size, align), k, l);
  }

  lemma StrideAligned(size: nat, align: nat)
    requires align > 0
    ensures Aligned(RawSize(size, align), align) && size <= RawSize(size, align)
  {
    RoundUpAligned(size, align);
  }

  // ----- whole trees -----

  /** The numeric address of a pointer, given the addresses of the stack slots and blocks. */
  function Address(addr: Base -> nat, p: Pointer): nat {
    match p
    case At(b, off) => addr(b) + off
    case Dangling(a) => a
    case Static(_) => 0
  }

  ghost predicate AlignedValue(env: Env, addr: Base -> nat, p: Pointer, v: Val)
    decreases v, 0
  {
    && v.ty in env.types && Aligned(Address(addr, p), env.types[v.ty].layout.align)
    && |v.kids| == |env.types[v.ty].fields|
    && forall i :: 0 <= i < |v.kids| ==>
         AlignedObject(env, addr, PointerAdd(p, env.types[v.ty].fields[i].off), v.kids[i])
  }

  ghost predicate AlignedObject(env: Env, addr: Base -> nat, at: Pointer, o: Obj)
    decreases o, 0
  {
    o.val.ty in env.types && AlignedValue(env, addr, Storage.PlaceOf(env, at, o), o.val)
  }

  ghost predicate HeapAligned(addr: Base -> nat, heap: HeapMap) {
    forall h :: h in heap ==> Aligned(addr(Heap(h)), heap[h].layout.align)
  }

  lemma DynAlignIsPow2(kind: Kind)
    requires ValidKind(kind)
    ensures IsPow2(DynAlign(kind))
  {
    assert IsPow2(8);
  }

  /** The value of an object: the storage is aligned for whatever it accepts. */
  lemma ValuePlaced(env: Env, addr: Base -> nat, heap: HeapMap, cells: seq<Cell>, at: Pointer, kind: Kind, o: Obj)
    requires WfEnv(env) && ValidKind(kind) && ObjectShape(env, heap, cells, kind, o) && HeapAligned(addr, heap)
    requires at.At? && Aligned(Address(addr, at), DynAlign(kind))
    ensures var t, p := env.types[o.val.ty].layout, Storage.PlaceOf(env, at, o);
      Aligned(Address(addr, p), t.align) && (t.size > 0 ==> p.At?)
  {
    hide WfField, Disjoint, WfMethod;
    var t := env.types[o.val.ty].layout;
    assert WfType(env, env.types[o.val.ty]);
    if o.loc.Inline? {
      DynAlignIsPow2(kind);
      SmallerDivides(t.align, DynAlign(kind));
      AlignedTrans(Address(addr, at), DynAlign(kind), t.align);
    } else if o.loc == Nowhere {
      MultipleIsAligned(1, t.align);
    }
  }

  lemma FieldPlaced(env: Env, addr: Base -> nat, p: Pointer, ty: TypeId, i: nat)
    requires WfEnv(env) && ty in env.types && i < |env.types[ty].fields|
    requires Aligned(Address(addr, p), env.types[ty].layout.align) && (env.types[ty].layout.size > 0 ==> p.At?)
    ensures ValidKind(env.types[ty].fields[i].kind)
    ensures var f := env.types[ty].fields[i];
      PointerAdd(p, f.off).At? && Aligned(Address(addr, PointerAdd(p, f.off)), DynAlign(f.kind))
  {
    FieldPlace(env, ty, i);
    var d, f := env.types[ty], env.types[ty].fields[i];
    assert WfType(env, d);
    DynAlignIsPow2(f.kind);
    SmallerDivides(DynAlign(f.kind), d.layout.align);
    AlignedTrans(Address(addr, p), d.layout.align, DynAlign(f.kind));
    AlignedSum(Address(addr, p), f.off, DynAlign(f.kind));
  }

  /** If the allocator aligns blocks and the object is aligned, so is every value in its tree. */
  lemma {:induction false} TreeAligned(env: Env, addr: Base -> nat, heap: HeapMap, cells: seq<Cell>,
                                       at: Pointer, kind: Kind, o: Obj)
    requires WfEnv(env) && ValidKind(kind) && HoldsObject(env, heap, cells, kind, o) && HeapAligned(addr, heap)
    requires at.At? && Aligned(Address(addr, at), DynAlign(kind))
    ensures AlignedObject(env, addr, at, o)
    decreases o, 1
  {
    hide HoldsField, WfEnv, WfType, AlignedObject, Aligned, Storage.PlaceOf, DynSize, DynAlign;
    var p, c := Storage.PlaceOf(env, at, o), ValueCells(env, heap, cells, o);
    ValuePlaced(env, addr, heap, cells, at, kind, o);
    ValueShape(env, heap, c, o.val);
    forall i | 0 <= i < |o.val.kids|
      ensures AlignedObject(env, addr, PointerAdd(p, env.types[o.val.ty].fields[i].off), o.val.kids[i])
    {
      FieldHeld(env, heap, c, o.val, i);
      FieldPlaced(env, addr, p, o.val.ty, i);
      var f := env.types[o.val.ty].fields[i];
      TreeAligned(env, addr, heap, c[f.off..f.off + DynSize(f.kind)], PointerAdd(p, f.off), f.kind, o.val.kids[i]);
    }
    AlignedHere(env, addr, at, o);
  }

  lemma AlignedHere(env: Env, addr: Base -> nat, at: Pointer, o: Obj)
    requires o.val.ty in env.types && AlignedValue(env, addr, Storage.PlaceOf(env, at, o), o.val)
    ensures AlignedObject(env, addr, at, o)
  {}
}
