/** What a client may observe, without memory: values are trees, and using an object is using its
    value. Addresses, blocks and vtables do not occur here; storage kinds do, as static types only. */
module Client {
  import opened Data
  import opened Layout
  import opened Memory
  import opened Values

  datatype Node = Node(tok: nat, ty: TypeId, data: seq<byte>, kids: seq<Node>)

  /** The tree a located tree stands for. */
  ghost function Abs(v: Val): Node {
    Node(v.tok, v.ty, v.data, seq(|v.kids|, i requires 0 <= i < |v.kids| => Abs(v.kids[i].val)))
  }

  /** Reaching a nested object: `downcast_mut` to `ty`, then the field. */
  datatype Step = Step(ty: TypeId, field: nat)

  datatype Action =
    | Call(index: nat, args: seq<Datum>)      // a method of the trait, through the vtable
    | DowncastRef(ty: TypeId)                 // and reading the plain bytes
    | DowncastMut(ty: TypeId, data: seq<byte>) // and overwriting the plain bytes

  /** `NotA` is the `None` or `Err` of a downcast; `Rejected` is a program that does not compile. */
  datatype Outcome = Returned(r: Datum) | Read(data: seq<byte>) | Written | NotA | Done | Rejected

  function Act(env: Env, n: Node, act: Action): (Node, Outcome)
    requires n.ty in env.types
  {
    match act
    case Call(m, args) =>
      if m < |env.types[n.ty].methods| then
        var r := env.types[n.ty].methods[m].step(n.data, args);
        (n.(data := r.0), Returned(r.1))
      else (n, Rejected)
    case DowncastRef(ty) => if n.ty == ty then (n, Read(n.data)) else (n, NotA)
    case DowncastMut(ty, data) =>
      if ty !in env.types || |data| != env.types[ty].plain then (n, Rejected)
      else if n.ty == ty then (n.(data := data), Written) else (n, NotA)
  }

  function Access(env: Env, n: Node, path: seq<Step>, act: Action): (Node, Outcome) {
    if n.ty !in env.types then (n, Rejected)
    else if path == [] then Act(env, n, act)
    else if path[0].ty !in env.types || path[0].field >= |env.types[path[0].ty].fields| then (n, Rejected)
    else if n.ty != path[0].ty || path[0].field >= |n.kids| then (n, NotA)
    else
      var (kid, out) := Access(env, n.kids[path[0].field], path[1..], act);
      (n.(kids := n.kids[path[0].field := kid]), out)
  }

  lemma AccessKeepsType(env: Env, n: Node, path: seq<Step>, act: Action)
    ensures Access(env, n, path, act).0.ty == n.ty
  {}

  // ----- whole programs -----

  /** A client variable: nothing (moved out, or `None`), a value, a boxed value, or a
      `DynObject`. The storage kind is part of its static type only. */
  datatype Slot = Empty | Value(v: Node) | Boxed(v: Node) | Dyn(kind: Kind, v: Node)

  /** A value that was dropped, with its identity and its bytes at that time. */
  datatype Dropped = Dropped(tok: nat, ty: TypeId, data: seq<byte>)

  /** `next` is the identity of the next value to come into being. */
  datatype World = World(slots: seq<Slot>, log: seq<Dropped>, next: nat)

  datatype Op =
    | Make(ty: TypeId, data: seq<byte>, parts: seq<nat>)  // a value owning the objects `parts`
    | New(kind: Kind, x: nat)                             // DynObject::new
    | BoxNew(x: nat)                                      // Box::new
    | FromBox(kind: Kind, x: nat)                         // DynObject::from_box
    | Move(x: nat)
    | Use(x: nat, path: seq<Step>, act: Action)
    | Downcast(x: nat, ty: TypeId)
    | Insert(x: nat, kind: Kind, y: nat)                  // DynObject::insert into an Option
    | Drop(x: nat)

  /** Dropping a tree: the value, then what it owns, in order. */
  function DropLog(n: Node): seq<Dropped> {
    [Dropped(n.tok, n.ty, n.data)] + DropLogs(n.kids)
  }

  function DropLogs(ns: seq<Node>): seq<Dropped> {
    if ns == [] then [] else DropLogs(ns[..|ns| - 1]) + DropLog(ns[|ns| - 1])
  }

  function SlotLog(s: Slot): seq<Dropped> {
    if s.Empty? then [] else DropLog(s.v)
  }

  /** The static type of a variable. */
  datatype Shape = NoShape | ValueOf(ty: TypeId) | BoxOf(ty: TypeId) | DynOf(kind: Kind)

  function ShapeOf(s: Slot): Shape {
    match s
    case Empty => NoShape
    case Value(v) => ValueOf(v.ty)
    case Boxed(v) => BoxOf(v.ty)
    case Dyn(kind, _) => DynOf(kind)
  }

  function ShapesOf(slots: seq<Slot>): seq<Shape> {
    seq(|slots|, i requires 0 <= i < |slots| => ShapeOf(slots[i]))
  }

  /** Whether the program compiles at this point: moved-out variables are not used, types
      match, and the storage accepts the type. */
  predicate Compiles(env: Env, shapes: seq<Shape>, op: Op) {
    match op
    case Make(ty, data, parts) =>
      && ty in env.types && |data| == env.types[ty].plain && |parts| == |env.types[ty].fields|
      && (forall i, j :: 0 <= i < j < |parts| ==> parts[i] != parts[j])
      && (forall i :: 0 <= i < |parts| ==> IsDyn(shapes, parts[i], env.types[ty].fields[i].kind))
    case New(kind, x) => x < |shapes| && shapes[x].ValueOf? && Accepts(env, kind, shapes[x].ty)
    case BoxNew(x) => x < |shapes| && shapes[x].ValueOf? && shapes[x].ty in env.types && env.alloc
    case FromBox(kind, x) =>
      x < |shapes| && shapes[x].BoxOf? && Accepts(env, kind, shapes[x].ty) && env.alloc && !kind.Raw?
    case Move(x) => x < |shapes| && shapes[x].DynOf?
    case Use(x, path, act) => x < |shapes| && shapes[x].DynOf?
    case Downcast(x, ty) => x < |shapes| && shapes[x].DynOf? && ty in env.types
    case Insert(x, kind, y) =>
      && x < |shapes| && y < |shapes| && x != y && shapes[y].ValueOf? && Accepts(env, kind, shapes[y].ty)
      && (shapes[x].NoShape? || shapes[x] == DynOf(kind))
    case Drop(x) => x < |shapes| && !shapes[x].NoShape?
  }

  /** Whether a statement moves, drops, replaces or downcasts what is in variable `x`. */
  predicate Touches(op: Op, x: nat) {
    match op
    case Make(_, _, parts) => x in parts
    case Use(_, _, _) => false
    case Insert(y, _, z) => x == y || x == z
    case _ => x == op.x
  }

  predicate IsDyn(shapes: seq<Shape>, x: nat, kind: Kind) { x < |shapes| && shapes[x] == DynOf(kind) }

  predicate Accepts(env: Env, kind: Kind, ty: TypeId) {
    ValidKind(kind) && ty in env.types && Permitted(env, kind, env.types[ty].layout)
  }

  function PartsOf(slots: seq<Slot>, parts: seq<nat>): seq<Node>
    requires forall i :: 0 <= i < |parts| ==> parts[i] < |slots| && slots[parts[i]].Dyn?
  {
    seq(|parts|, i requires 0 <= i < |parts| => slots[parts[i]].v)
  }

  function Cleared(slots: seq<Slot>, parts: seq<nat>): seq<Slot> {
    seq(|slots|, i requires 0 <= i < |slots| => if i in parts then Empty else slots[i])
  }

  /** One step of the client, on trees: the whole specification of the storages. */
  function Next(env: Env, w: World, op: Op): (World, Outcome) {
    if !Compiles(env, ShapesOf(w.slots), op) then (w, Rejected) else
    match op
    case Make(ty, data, parts) =>
      var v := Node(w.next, ty, data, PartsOf(w.slots, parts));
      (World(Cleared(w.slots, parts) + [Value(v)], w.log, w.next + 1), Done)
    case New(kind, x) => (w.(slots := w.slots[x := Empty] + [Dyn(kind, w.slots[x].v)]), Done)
    case BoxNew(x) => (w.(slots := w.slots[x := Empty] + [Boxed(w.slots[x].v)]), Done)
    case FromBox(kind, x) => (w.(slots := w.slots[x := Empty] + [Dyn(kind, w.slots[x].v)]), Done)
    case Move(x) => (w.(slots := w.slots[x := Empty] + [w.slots[x]]), Done)
    case Use(x, path, act) =>
      var (v, out) := Access(env, w.slots[x].v, path, act);
      (w.(slots := w.slots[x := w.slots[x].(v := v)]), out)
    case Downcast(x, ty) =>
      if w.slots[x].v.ty == ty then (w.(slots := w.slots[x := Empty] + [Value(w.slots[x].v)]), Done)
      else (w, NotA)
    case Insert(x, kind, y) =>
      (World(w.slots[y := Empty][x := Dyn(kind, w.slots[y].v)], w.log + SlotLog(w.slots[x]), w.next), Done)
    case Drop(x) => (World(w.slots[x := Empty], w.log + SlotLog(w.slots[x]), w.next), Done)
  }

  /** A whole program. */
  function Run(env: Env, w: World, ops: seq<Op>): (World, seq<Outcome>) {
    if ops == [] then (w, []) else
    var (w1, outs) := Run(env, w, ops[..|ops| - 1]);
    var (w2, out) := Next(env, w1, ops[|ops| - 1]);
    (w2, outs + [out])
  }
}
