/** `downcast` of a `DynObject<dyn Any, S>`. */
module Any {
  import opened Wrappers
  import opened Layout
  import opened Memory
  import opened Values
  import opened Object
  import Storage

  /** At the right type the value is read out and the storage released, the destructor being
      skipped; at another type nothing happens. */
  method Downcast(mem: Memory, env: Env, at: Pointer, kind: Kind, ty: TypeId, ghost o: Obj)
    returns (r: Option<seq<Cell>>)
    requires mem.Valid() && WfEnv(env) && ObjectAt(env, mem.cur, at, kind, o) && ty in env.types
    modifies mem
    ensures mem.Valid() && (r.Some? <==> o.val.ty == ty)
    ensures r.None? ==> mem.cur == old(mem.cur) && mem.trace == old(mem.trace)
    ensures r.Some? ==> HoldsValue(env, mem.cur.heap, r.value, o.val)
    ensures r.Some? ==> mem.cur == old(mem.cur).(heap := Without(old(mem.cur).heap, Here(o)))
    ensures r.Some? ==> mem.trace == old(mem.trace) + Storage.FreeTrace(o, env.types[ty].layout)
  {
    hide *;
    StorageOf(env, mem.cur, at, kind, o);
    TypeIdIs(env, o.val.ty, kind);
    if VtableAt(mem.cur, kind, at).value.typeId == ty {
      ReadOut(env, mem.cur, at, kind, o);
      var p := Storage.Ptr(kind, at, Load(mem.cur, at, StorageSize(kind)));
      var data := Load(mem.cur, p, env.types[ty].layout.size);
      Storage.DropInPlace(mem, env, kind, at, env.types[ty].layout, o);
      r := Some(data);
    } else {
      r := None;
    }
  }

  lemma TypeIdIs(env: Env, ty: TypeId, kind: Kind)
    requires ty in env.types
    ensures VtableFor(env, ty, kind).typeId == ty
  {}

  /** The value read out stays whole when only its own block is released. */
  lemma ReadOut(env: Env, s: State, at: Pointer, kind: Kind, o: Obj)
    requires WfEnv(env) && ObjectAt(env, s, at, kind, o) && o.val.ty in env.types
    ensures ValidKind(kind) && Readable(s, at, StorageSize(kind))
    ensures var p, n := Storage.Ptr(kind, at, Load(s, at, StorageSize(kind))), env.types[o.val.ty].layout.size;
      Readable(s, p, n) && HoldsValue(env, Without(s.heap, Here(o)), Load(s, p, n), o.val)
    ensures at.At?
  {
    hide HoldsValue, HoldsObject, WfEnv, StorageShape, Unique, Foot, FootKids, Load, Readable;
    StorageOf(env, s, at, kind, o);
    StoredValue(env, s, at, kind, o);
    Storage.StoredAt(env, s, kind, at, o);
    HereApart(o);
    var p, n := Storage.PlaceOf(env, at, o), env.types[o.val.ty].layout.size;
    FrameValue(env, s.heap, Without(s.heap, Here(o)), Load(s, p, n), o.val);
  }
}
