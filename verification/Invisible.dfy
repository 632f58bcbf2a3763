/** The storage is invisible: two programs that differ in the storages they name, over types that
    differ in layout and in the storages of their fields, behave alike. */
module Invisible {
  import opened Memory
  import opened Values
  import opened Client

  ghost predicate SameType(d: TypeDesc, d': TypeDesc) {
    d.plain == d'.plain && |d.fields| == |d'.fields| && d.methods == d'.methods && d.userDrop == d'.userDrop
  }

  /** The same types up to layout, drop glue and storages. */
  ghost predicate SameTypes(env: Env, env': Env) {
    && env.types.Keys == env'.types.Keys
    && forall ty :: ty in env.types ==> SameType(env.types[ty], env'.types[ty])
  }

  ghost predicate SameSlot(s: Slot, s': Slot) {
    match (s, s')
    case (Dyn(_, v), Dyn(_, v')) => v == v'
    case _ => s == s'
  }

  ghost predicate SameWorld(w: World, w': World) {
    && |w.slots| == |w'.slots| && w.log == w'.log && w.next == w'.next
    && forall x :: 0 <= x < |w.slots| ==> SameSlot(w.slots[x], w'.slots[x])
  }

  ghost predicate SameOp(op: Op, op': Op) {
    match (op, op')
    case (New(_, x), New(_, x')) => x == x'
    case (FromBox(_, x), FromBox(_, x')) => x == x'
    case (Insert(x, _, y), Insert(x', _, y')) => x == x' && y == y'
    case _ => op == op'
  }

  ghost predicate SameOps(ops: seq<Op>, ops': seq<Op>) {
    |ops| == |ops'| && forall i :: 0 <= i < |ops| ==> SameOp(ops[i], ops'[i])
  }

  /** Every statement compiles where it stands; for `Raw`, that its storage fits. */
  ghost predicate AllCompile(env: Env, w: World, ops: seq<Op>) {
    forall i :: 0 <= i < |ops| ==> Compiles(env, ShapesOf(Run(env, w, ops[..i]).0.slots), ops[i])
  }

  lemma {:induction false} AccessAlike(env: Env, env': Env, n: Node, path: seq<Step>, act: Action)
    requires SameTypes(env, env')
    ensures Access(env, n, path, act) == Access(env', n, path, act)
    decreases |path|
  {
    if path == [] {
      if n.ty in env.types { assert SameType(env.types[n.ty], env'.types[n.ty]); }
      match act
      case DowncastMut(ty, _) => if ty in env.types { assert SameType(env.types[ty], env'.types[ty]); }
      case _ =>
    } else {
      if path[0].ty in env.types { assert SameType(env.types[path[0].ty], env'.types[path[0].ty]); }
      if path[0].field < |n.kids| { AccessAlike(env, env', n.kids[path[0].field], path[1..], act); }
    }
  }

  lemma NextAlike(env: Env, env': Env, w: World, w': World, op: Op, op': Op)
    requires SameTypes(env, env') && SameWorld(w, w') && SameOp(op, op')
    requires Compiles(env, ShapesOf(w.slots), op) && Compiles(env', ShapesOf(w'.slots), op')
    ensures SameWorld(Next(env, w, op).0, Next(env', w', op').0)
    ensures Next(env, w, op).1 == Next(env', w', op').1
  {
    hide Accepts, DropLog, Access, SameTypes, PartsOf, Cleared, IsDyn;
    match op
    case Make(ty, data, parts) => MakeAlike(env, env', w, w', op);
    case Use(_, _, _) => UseAlike(env, env', w, w', op);
    case Insert(x, _, y) => assert SameSlot(w.slots[x], w'.slots[x]) && SameSlot(w.slots[y], w'.slots[y]);
    case _ => assert SameSlot(w.slots[op.x], w'.slots[op.x]);
  }

  lemma UseAlike(env: Env, env': Env, w: World, w': World, op: Op)
    requires SameTypes(env, env') && SameWorld(w, w') && op.Use?
    requires Compiles(env, ShapesOf(w.slots), op) && Compiles(env', ShapesOf(w'.slots), op)
    ensures SameWorld(Next(env, w, op).0, Next(env', w', op).0)
    ensures Next(env, w, op).1 == Next(env', w', op).1
  {
    assert SameSlot(w.slots[op.x], w'.slots[op.x]);
    AccessAlike(env, env', w.slots[op.x].v, op.path, op.act);
  }

  lemma MakeAlike(env: Env, env': Env, w: World, w': World, op: Op)
    requires SameTypes(env, env') && SameWorld(w, w') && op.Make?
    requires Compiles(env, ShapesOf(w.slots), op) && Compiles(env', ShapesOf(w'.slots), op)
    ensures SameWorld(Next(env, w, op).0, Next(env', w', op).0)
    ensures Next(env, w, op).1 == Next(env', w', op).1
  {
    forall i | 0 <= i < |op.parts| ensures SameSlot(w.slots[op.parts[i]], w'.slots[op.parts[i]]) {
      assert IsDyn(ShapesOf(w.slots), op.parts[i], env.types[op.ty].fields[i].kind);
    }
    assert PartsOf(w.slots, op.parts) == PartsOf(w'.slots, op.parts);
  }

  /** The same outcomes and the same values dropped in the same order, over every run. */
  lemma {:induction false} RunAlike(env: Env, env': Env, w: World, w': World, ops: seq<Op>, ops': seq<Op>)
    requires SameTypes(env, env') && SameWorld(w, w') && SameOps(ops, ops')
    requires AllCompile(env, w, ops) && AllCompile(env', w', ops')
    ensures SameWorld(Run(env, w, ops).0, Run(env', w', ops').0)
    ensures Run(env, w, ops).1 == Run(env', w', ops').1
    decreases |ops|
  {
    hide SameTypes, SameWorld, SameOp, Compiles, Next, ShapesOf;
    if ops != [] {
      var k := |ops| - 1;
      Earlier(env, w, ops);
      Earlier(env', w', ops');
      RunAlike(env, env', w, w', ops[..k], ops'[..k]);
      NextAlike(env, env', Run(env, w, ops[..k]).0, Run(env', w', ops'[..k]).0, ops[k], ops'[k]);
    }
  }

  lemma Earlier(env: Env, w: World, ops: seq<Op>)
    requires AllCompile(env, w, ops) && ops != []
    ensures AllCompile(env, w, ops[..|ops| - 1])
  {
    var k := |ops| - 1;
    forall i | 0 <= i < k ensures Compiles(env, ShapesOf(Run(env, w, ops[..k][..i]).0.slots), ops[..k][i]) {
      assert ops[..k][..i] == ops[..i];
    }
  }
}
