/** What a client can count on, from one statement to another: what is written is read, and what is put
    into an object comes out of it. */
module ClientLaws {
  import opened Wrappers
  import opened Data
  import opened Layout
  import opened Memory
  import opened Values
  import opened Client

  // ----- within one object -----

  /** The value reached from `n` by downcasts and fields; a type on the path must be the one found. */
  function Reached(env: Env, n: Node, path: seq<Step>): (r: Option<Node>)
    ensures r.Some? ==> r.value.ty in env.types
  {
    if n.ty !in env.types || |n.kids| != |env.types[n.ty].fields| then None
    else if path == [] then Some(n)
    else if path[0].ty != n.ty || path[0].field >= |n.kids| then None
    else Reached(env, n.kids[path[0].field], path[1..])
  }

  /** `n'` is `n` with the value at the end of the path replaced. */
  predicate Replaced(n: Node, n': Node, path: seq<Step>, v: Node) {
    if path == [] then n' == v
    else
      var i := path[0].field;
      n'.tok == n.tok && n'.ty == n.ty && n'.data == n.data && |n'.kids| == |n.kids| && i < |n.kids|
      && (forall j :: 0 <= j < |n.kids| && j != i ==> n'.kids[j] == n.kids[j])
      && Replaced(n.kids[i], n'.kids[i], path[1..], v)
  }

  /** A downcast to the type of the value reached gives its bytes or overwrites them, and one to another
      type does neither; a call runs the method on the bytes. Nothing else in the tree changes. */
  lemma {:induction false} AtPath(env: Env, n: Node, path: seq<Step>, act: Action)
    requires Reached(env, n, path).Some?
    ensures var (n', out) := Access(env, n, path, act);
      var v := Reached(env, n, path).value;
      match act
      case DowncastRef(ty) => n' == n && out == if ty == v.ty then Read(v.data) else NotA
      case DowncastMut(ty, data) =>
        (out == Written <==> ty == v.ty && |data| == env.types[v.ty].plain)
        && (if out == Written then Replaced(n, n', path, v.(data := data)) else n' == n && out in {NotA, Rejected})
        && (ty in env.types && ty != v.ty && |data| == env.types[ty].plain ==> out == NotA)
      case Call(m, args) =>
        if m < |env.types[v.ty].methods| then
          var step := env.types[v.ty].methods[m].step(v.data, args);
          out == Returned(step.1) && Replaced(n, n', path, v.(data := step.0))
        else n' == n && out == Rejected
    decreases path
  {
    if path != [] {
      var i := path[0].field;
      AtPath(env, n.kids[i], path[1..], act);
      assert n.(kids := n.kids[i := n.kids[i]]) == n;
    }
  }

  /** After that the value reached is the new one. */
  lemma {:induction false} ReachedAfter(env: Env, n: Node, n': Node, path: seq<Step>, data: seq<byte>)
    requires Reached(env, n, path).Some? && Replaced(n, n', path, Reached(env, n, path).value.(data := data))
    ensures Reached(env, n', path) == Some(Reached(env, n, path).value.(data := data))
    decreases path
  {
    if path != [] { ReachedAfter(env, n.kids[path[0].field], n'.kids[path[0].field], path[1..], data); }
  }

  // ----- between statements -----

  /** No statement moves, drops, replaces, downcasts or uses variable `x`. */
  predicate LeavesAlone(ops: seq<Op>, x: nat) {
    forall i :: 0 <= i < |ops| ==> !Touches(ops[i], x) && !(ops[i].Use? && ops[i].x == x)
  }

  lemma StepLeaves(env: Env, w: World, op: Op, x: nat)
    requires x < |w.slots| && !Touches(op, x) && !(op.Use? && op.x == x)
    ensures |w.slots| <= |Next(env, w, op).0.slots| && Next(env, w, op).0.slots[x] == w.slots[x]
  {
    hide Access, SlotLog, Accepts;
  }

  /** A variable that is left alone holds what it held. */
  lemma {:induction false} RunLeaves(env: Env, w: World, ops: seq<Op>, x: nat)
    requires x < |w.slots| && LeavesAlone(ops, x)
    ensures |w.slots| <= |Run(env, w, ops).0.slots| && Run(env, w, ops).0.slots[x] == w.slots[x]
    decreases |ops|
  {
    hide Next, Touches;
    if ops != [] {
      RunLeaves(env, w, ops[..|ops| - 1], x);
      StepLeaves(env, Run(env, w, ops[..|ops| - 1]).0, ops[|ops| - 1], x);
    }
  }

  /** One statement, then a program, then another statement. */
  lemma {:induction false} RunAround(env: Env, w: World, first: Op, ops: seq<Op>, last: Op)
    ensures var (w1, out) := Next(env, w, first);
      var (w2, outs) := Run(env, w1, ops);
      var (w3, out') := Next(env, w2, last);
      Run(env, w, [first] + ops + [last]) == (w3, [out] + outs + [out'])
  {
    hide Next;
    RunAfter(env, w, first, ops);
    assert ([first] + ops + [last])[..|ops| + 1] == [first] + ops;
  }

  lemma RunNothing(env: Env, w: World)
    ensures Run(env, w, []) == (w, [])
  {}

  lemma RunOne(env: Env, w: World, ops: seq<Op>)
    requires |ops| == 1
    ensures Run(env, w, ops) == (Next(env, w, ops[0]).0, [Next(env, w, ops[0]).1])
  {
    hide Next;
    var before := ops[..|ops| - 1];
    assert before == [];
    RunNothing(env, w);
    assert Run(env, w, before).1 + [Next(env, w, ops[0]).1] == [Next(env, w, ops[0]).1];
  }

  lemma {:induction false} RunAfter(env: Env, w: World, first: Op, ops: seq<Op>)
    ensures var (w1, out) := Next(env, w, first);
      var (w2, outs) := Run(env, w1, ops);
      Run(env, w, [first] + ops) == (w2, [out] + outs)
    decreases |ops|
  {
    hide Next;
    if ops == [] {
      RunOne(env, w, [first] + ops);
      var (w1, out) := Next(env, w, first);
      RunNothing(env, w1);
      assert [out] + Run(env, w1, ops).1 == [out];
    } else {
      RunAfter(env, w, first, ops[..|ops| - 1]);
      var all := [first] + ops;
      assert all[..|all| - 1] == [first] + ops[..|ops| - 1] && all[|all| - 1] == ops[|ops| - 1];
      var (w1, out) := Next(env, w, first);
      var (w2, outs) := Run(env, w1, ops[..|ops| - 1]);
      assert ([out] + outs) + [Next(env, w2, ops[|ops| - 1]).1] == [out] + (outs + [Next(env, w2, ops[|ops| - 1]).1]);
    }
  }

  lemma UseIs(env: Env, w: World, x: nat, path: seq<Step>, act: Action)
    requires x < |w.slots| && w.slots[x].Dyn?
    ensures var (v, out) := Access(env, w.slots[x].v, path, act);
      Next(env, w, Use(x, path, act)) == (w.(slots := w.slots[x := w.slots[x].(v := v)]), out)
  {
    hide Access;
    assert Compiles(env, ShapesOf(w.slots), Use(x, path, act));
  }

  /** What `downcast_mut` writes, at any depth, `downcast_ref` reads later, whatever happens to other
      variables in between. */
  lemma WrittenIsRead(env: Env, w: World, x: nat, path: seq<Step>, ty: TypeId, data: seq<byte>, ops: seq<Op>)
    requires x < |w.slots| && w.slots[x].Dyn? && Reached(env, w.slots[x].v, path).Some?
    requires Reached(env, w.slots[x].v, path).value.ty == ty && |data| == env.types[ty].plain
    requires LeavesAlone(ops, x)
    ensures var (_, outs) :=
        Run(env, w, [Use(x, path, DowncastMut(ty, data))] + ops + [Use(x, path, DowncastRef(ty))]);
      outs[0] == Written && outs[|outs| - 1] == Read(data)
  {
    hide Access, Next, Run, LeavesAlone;
    var first, last := Use(x, path, DowncastMut(ty, data)), Use(x, path, DowncastRef(ty));
    var n := w.slots[x].v;
    UseIs(env, w, x, path, first.act);
    AtPath(env, n, path, first.act);
    var (w1, _) := Next(env, w, first);
    ReachedAfter(env, n, w1.slots[x].v, path, data);
    RunLeaves(env, w1, ops, x);
    var (w2, _) := Run(env, w1, ops);
    UseIs(env, w2, x, path, last.act);
    AtPath(env, w2.slots[x].v, path, last.act);
    RunAround(env, w, first, ops, last);
  }

  // ----- in and out -----

  /** A value stored by `DynObject::new`, in any storage that accepts it, comes out by `downcast` to its
      type as it went in; at another type the object comes back. */
  lemma ComesBack(env: Env, w: World, x: nat, kind: Kind, ty: TypeId, ops: seq<Op>)
    requires x < |w.slots| && w.slots[x].Value? && Accepts(env, kind, w.slots[x].v.ty) && ty in env.types
    requires LeavesAlone(ops, |w.slots|)
    ensures var v, n := w.slots[x].v, |w.slots|;
      var (w', outs) := Run(env, w, [New(kind, x)] + ops + [Downcast(n, ty)]);
      n < |w'.slots| && outs[0] == Done
      && (if ty == v.ty then outs[|outs| - 1] == Done && w'.slots[n] == Empty && w'.slots[|w'.slots| - 1] == Value(v)
          else outs[|outs| - 1] == NotA && w'.slots[n] == Dyn(kind, v))
  {
    hide Run, LeavesAlone, Accepts;
    assert Compiles(env, ShapesOf(w.slots), New(kind, x));
    var (w1, _) := Next(env, w, New(kind, x));
    RunLeaves(env, w1, ops, |w.slots|);
    var (w2, _) := Run(env, w1, ops);
    assert Compiles(env, ShapesOf(w2.slots), Downcast(|w.slots|, ty));
    RunAround(env, w, New(kind, x), ops, Downcast(|w.slots|, ty));
  }

  /** So does a boxed one, through `from_box`. */
  lemma BoxComesBack(env: Env, w: World, x: nat, kind: Kind, ops: seq<Op>)
    requires x < |w.slots| && w.slots[x].Value? && Accepts(env, kind, w.slots[x].v.ty) && env.alloc && !kind.Raw?
    requires LeavesAlone(ops, |w.slots|)
    ensures var (w', outs) := Run(env, w, [BoxNew(x)] + ops + [FromBox(kind, |w.slots|)]);
      outs[0] == Done && outs[|outs| - 1] == Done && |w.slots| < |w'.slots|
      && w'.slots[|w'.slots| - 1] == Dyn(kind, w.slots[x].v) && w'.slots[|w.slots|] == Empty
  {
    hide Run, LeavesAlone, Permitted;
    assert Compiles(env, ShapesOf(w.slots), BoxNew(x));
    var (w1, _) := Next(env, w, BoxNew(x));
    RunLeaves(env, w1, ops, |w.slots|);
    var (w2, _) := Run(env, w1, ops);
    assert Compiles(env, ShapesOf(w2.slots), FromBox(kind, |w.slots|));
    RunAround(env, w, BoxNew(x), ops, FromBox(kind, |w.slots|));
  }

  /** A moved object is the same object. */
  lemma Moved(env: Env, w: World, x: nat)
    requires x < |w.slots| && w.slots[x].Dyn?
    ensures var (w', out) := Next(env, w, Move(x));
      out == Done && |w'.slots| == |w.slots| + 1 && w'.slots[|w.slots|] == w.slots[x] && w'.slots[x] == Empty
      && w'.log == w.log && forall y :: 0 <= y < |w.slots| && y != x ==> w'.slots[y] == w.slots[y]
  {
    assert Compiles(env, ShapesOf(w.slots), Move(x));
  }

  /** `insert` into an empty or a full variable leaves the new value there, to be read at once, and drops
      the old one. */
  lemma Inserted(env: Env, w: World, x: nat, kind: Kind, y: nat)
    requires x < |w.slots| && y < |w.slots| && x != y && w.slots[y].Value? && Accepts(env, kind, w.slots[y].v.ty)
    requires w.slots[x].Empty? || (w.slots[x].Dyn? && w.slots[x].kind == kind)
    requires |w.slots[y].v.kids| == |env.types[w.slots[y].v.ty].fields|
    ensures var v := w.slots[y].v;
      var (w', outs) := Run(env, w, [Op.Insert(x, kind, y)] + [] + [Use(x, [], DowncastRef(v.ty))]);
      outs == [Done, Read(v.data)] && |w'.slots| == |w.slots| && w'.slots[x] == Dyn(kind, v) && w'.slots[y] == Empty
      && w'.log == w.log + if w.slots[x].Empty? then [] else DropLog(w.slots[x].v)
  {
    hide Run, DropLog;
    var v, op := w.slots[y].v, Op.Insert(x, kind, y);
    assert Compiles(env, ShapesOf(w.slots), op);
    var (w1, _) := Next(env, w, op);
    UseIs(env, w1, x, [], DowncastRef(v.ty));
    AtPath(env, v, [], DowncastRef(v.ty));
    assert w1.slots[x := w1.slots[x].(v := v)] == w1.slots;
    RunAround(env, w, op, [], Use(x, [], DowncastRef(v.ty)));
    RunNothing(env, w1);
  }

  /** The objects moved into a value are its parts: using part `i` through it is using the object. */
  lemma PartsUsed(env: Env, w: World, ty: TypeId, data: seq<byte>, parts: seq<nat>, i: nat, path: seq<Step>,
                  act: Action)
    requires Compiles(env, ShapesOf(w.slots), Make(ty, data, parts)) && i < |parts|
    ensures var w' := Next(env, w, Make(ty, data, parts)).0;
      parts[i] < |w.slots| && w.slots[parts[i]].Dyn? && |w'.slots| == |w.slots| + 1 && w'.slots[|w.slots|].Value?
      && w'.slots[|w.slots|].v.ty == ty && w'.slots[|w.slots|].v.data == data
      && Access(env, w'.slots[|w.slots|].v, [Step(ty, i)] + path, act).1
         == Access(env, w.slots[parts[i]].v, path, act).1
  {
    assert IsDyn(ShapesOf(w.slots), parts[i], env.types[ty].fields[i].kind);
    assert ([Step(ty, i)] + path)[1..] == path;
  }
}
