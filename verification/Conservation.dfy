/** Every value has one fate: it is live in one place, or it was dropped, once. */
module Conservation {
  import opened Values
  import opened Client

  function One(b: bool): nat { if b then 1 else 0 }

  /** How often the value `t` occurs in a tree. */
  function InNode(n: Node, t: nat): nat { One(n.tok == t) + InNodes(n.kids, t) }

  function InNodes(ns: seq<Node>, t: nat): nat {
    if ns == [] then 0 else InNodes(ns[..|ns| - 1], t) + InNode(ns[|ns| - 1], t)
  }

  function InSlot(s: Slot, t: nat): nat { if s.Empty? then 0 else InNode(s.v, t) }

  /** How often it is live. */
  function Live(slots: seq<Slot>, t: nat): nat {
    if slots == [] then 0 else Live(slots[..|slots| - 1], t) + InSlot(slots[|slots| - 1], t)
  }

  /** How often it was dropped. */
  function DroppedTimes(log: seq<Dropped>, t: nat): nat {
    if log == [] then 0 else DroppedTimes(log[..|log| - 1], t) + One(log[|log| - 1].tok == t)
  }

  /** Each value made so far is live once or dropped once, and there are no others. */
  ghost predicate Conserved(w: World) {
    forall t: nat :: Live(w.slots, t) + DroppedTimes(w.log, t) == One(t < w.next)
  }

  lemma {:induction false} InNodesSet(ns: seq<Node>, i: nat, n: Node, t: nat)
    requires i < |ns|
    ensures InNodes(ns[i := n], t) + InNode(ns[i], t) == InNodes(ns, t) + InNode(n, t)
    decreases |ns|
  {
    var last := |ns| - 1;
    if i < last {
      InNodesSet(ns[..last], i, n, t);
      assert ns[i := n][..last] == ns[..last][i := n];
    } else {
      assert ns[i := n][..last] == ns[..last];
    }
  }

  lemma {:induction false} LiveSet(slots: seq<Slot>, x: nat, s: Slot, t: nat)
    requires x < |slots|
    ensures Live(slots[x := s], t) + InSlot(slots[x], t) == Live(slots, t) + InSlot(s, t)
    decreases |slots|
  {
    var last := |slots| - 1;
    if x < last {
      LiveSet(slots[..last], x, s, t);
      assert slots[x := s][..last] == slots[..last][x := s];
    } else {
      assert slots[x := s][..last] == slots[..last];
    }
  }

  lemma LivePush(slots: seq<Slot>, s: Slot, t: nat)
    ensures Live(slots + [s], t) == Live(slots, t) + InSlot(s, t)
  {
    assert (slots + [s])[..|slots|] == slots;
  }

  lemma {:induction false} DroppedAppend(l: seq<Dropped>, m: seq<Dropped>, t: nat)
    ensures DroppedTimes(l + m, t) == DroppedTimes(l, t) + DroppedTimes(m, t)
    decreases |m|
  {
    if m == [] {
      assert l + m == l;
    } else {
      DroppedAppend(l, m[..|m| - 1], t);
      assert (l + m)[..|l + m| - 1] == l + m[..|m| - 1];
    }
  }

  /** Dropping a tree drops each of its values once. */
  lemma {:induction false} DropLogCounts(n: Node, t: nat)
    ensures DroppedTimes(DropLog(n), t) == InNode(n, t)
    decreases n, |n.kids| + 1
  {
    var first := [Dropped(n.tok, n.ty, n.data)];
    DroppedAppend(first, DropLogs(n.kids), t);
    assert first[..0] == [];
    KidsCounts(n, |n.kids|, t);
    assert n.kids[..|n.kids|] == n.kids;
  }

  lemma {:induction false} KidsCounts(n: Node, k: nat, t: nat)
    requires k <= |n.kids|
    ensures DroppedTimes(DropLogs(n.kids[..k]), t) == InNodes(n.kids[..k], t)
    decreases n, k
  {
    if k > 0 {
      KidsCounts(n, k - 1, t);
      DropLogCounts(n.kids[k - 1], t);
      assert n.kids[..k][..k - 1] == n.kids[..k - 1];
      DroppedAppend(DropLogs(n.kids[..k - 1]), DropLog(n.kids[k - 1]), t);
    }
  }

  /** Using an object in place makes, drops and loses nothing. */
  lemma {:induction false} AccessKeeps(env: Env, n: Node, path: seq<Step>, act: Action, t: nat)
    ensures InNode(Access(env, n, path, act).0, t) == InNode(n, t)
    decreases |path|
  {
    if n.ty in env.types && path != [] && path[0].field < |n.kids| {
      AccessKeeps(env, n.kids[path[0].field], path[1..], act, t);
      InNodesSet(n.kids, path[0].field, Access(env, n.kids[path[0].field], path[1..], act).0, t);
    }
  }

  /** Moving variables into a value moves what they hold. */
  lemma {:induction false} PartsMoved(slots: seq<Slot>, parts: seq<nat>, t: nat)
    requires forall i :: 0 <= i < |parts| ==> parts[i] < |slots| && slots[parts[i]].Dyn?
    requires forall i, j :: 0 <= i < j < |parts| ==> parts[i] != parts[j]
    ensures Live(Cleared(slots, parts), t) + InNodes(PartsOf(slots, parts), t) == Live(slots, t)
    decreases |parts|
  {
    if parts == [] {
      assert Cleared(slots, parts) == slots;
    } else {
      var k := |parts| - 1;
      PartsMoved(slots, parts[..k], t);
      var before := Cleared(slots, parts[..k]);
      LiveSet(before, parts[k], Empty, t);
      assert Cleared(slots, parts) == before[parts[k] := Empty];
      assert PartsOf(slots, parts)[..k] == PartsOf(slots, parts[..k]);
    }
  }

  lemma SlotLogCounts(s: Slot, t: nat)
    ensures DroppedTimes(SlotLog(s), t) == InSlot(s, t)
  {
    if !s.Empty? { DropLogCounts(s.v, t); }
  }

  lemma StepConserves(env: Env, w: World, op: Op)
    requires Conserved(w)
    ensures Conserved(Next(env, w, op).0)
  {
    var w' := Next(env, w, op).0;
    forall t: nat ensures Live(w'.slots, t) + DroppedTimes(w'.log, t) == One(t < w'.next) {
      assert Live(w.slots, t) + DroppedTimes(w.log, t) == One(t < w.next);
      if Compiles(env, ShapesOf(w.slots), op) { StepCounts(env, w, op, t); }
    }
  }

  lemma StepCounts(env: Env, w: World, op: Op, t: nat)
    requires Compiles(env, ShapesOf(w.slots), op)
    ensures var w' := Next(env, w, op).0;
      Live(w'.slots, t) + DroppedTimes(w'.log, t) + One(t < w.next) ==
      Live(w.slots, t) + DroppedTimes(w.log, t) + One(t < w'.next)
  {
    hide Live, DroppedTimes, InNodes, Accepts, SlotLog, Access;
    match op
    case Make(ty, data, parts) =>
      PartsMoved(w.slots, parts, t);
      LivePush(Cleared(w.slots, parts), Value(Node(w.next, ty, data, PartsOf(w.slots, parts))), t);
    case New(kind, x) =>
      LiveSet(w.slots, x, Empty, t);
      LivePush(w.slots[x := Empty], Dyn(kind, w.slots[x].v), t);
    case BoxNew(x) =>
      LiveSet(w.slots, x, Empty, t);
      LivePush(w.slots[x := Empty], Boxed(w.slots[x].v), t);
    case FromBox(kind, x) =>
      LiveSet(w.slots, x, Empty, t);
      LivePush(w.slots[x := Empty], Dyn(kind, w.slots[x].v), t);
    case Move(x) =>
      LiveSet(w.slots, x, Empty, t);
      LivePush(w.slots[x := Empty], w.slots[x], t);
    case Use(x, path, act) =>
      var v := Access(env, w.slots[x].v, path, act).0;
      AccessKeeps(env, w.slots[x].v, path, act, t);
      LiveSet(w.slots, x, w.slots[x].(v := v), t);
    case Downcast(x, ty) =>
      LiveSet(w.slots, x, Empty, t);
      LivePush(w.slots[x := Empty], Value(w.slots[x].v), t);
    case Insert(x, kind, y) =>
      LiveSet(w.slots, y, Empty, t);
      LiveSet(w.slots[y := Empty], x, Dyn(kind, w.slots[y].v), t);
      SlotLogCounts(w.slots[x], t);
      DroppedAppend(w.log, SlotLog(w.slots[x]), t);
    case Drop(x) =>
      LiveSet(w.slots, x, Empty, t);
      SlotLogCounts(w.slots[x], t);
      DroppedAppend(w.log, SlotLog(w.slots[x]), t);
  }

  /** Value conservation over every run. */
  lemma {:induction false} RunConserves(env: Env, w: World, ops: seq<Op>)
    requires Conserved(w)
    ensures Conserved(Run(env, w, ops).0)
    decreases |ops|
  {
    if ops != [] {
      RunConserves(env, w, ops[..|ops| - 1]);
      StepConserves(env, Run(env, w, ops[..|ops| - 1]).0, ops[|ops| - 1]);
    }
  }

  ghost predicate Finished(slots: seq<Slot>) { forall x :: 0 <= x < |slots| ==> slots[x].Empty? }

  /** A program that ends with no variable left has dropped every value it made exactly once. */
  lemma AllDroppedOnce(env: Env, ops: seq<Op>, t: nat)
    requires Finished(Run(env, World([], [], 0), ops).0.slots)
    ensures DroppedTimes(Run(env, World([], [], 0), ops).0.log, t) == One(t < Run(env, World([], [], 0), ops).0.next)
  {
    RunConserves(env, World([], [], 0), ops);
    NothingLive(Run(env, World([], [], 0), ops).0.slots, t);
  }

  lemma {:induction false} NothingLive(slots: seq<Slot>, t: nat)
    requires Finished(slots)
    ensures Live(slots, t) == 0
    decreases |slots|
  {
    if slots != [] { NothingLive(slots[..|slots| - 1], t); }
  }
}
