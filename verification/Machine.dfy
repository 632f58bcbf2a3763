/** The whole machine running a client program over `DynObject`s of any storage, and its
    refinement of `Client.Run`. */
module Machine {
  import opened Layout
  import opened Memory
  import opened Values
  import opened Object
  import opened Client
  import Storage

  /** What a variable holds, with every place. */
  datatype Held = Nothing | HeldValue(v: Val) | HeldBox(o: Obj) | HeldDyn(o: Obj)

  ghost predicate Holds(env: Env, heap: HeapMap, cells: seq<Cell>, shape: Shape, h: Held)
    requires WfEnv(env)
  {
    match shape
    case NoShape => h.Nothing?
    case ValueOf(ty) => h.HeldValue? && h.v.ty == ty && HoldsValue(env, heap, cells, h.v)
    case BoxOf(ty) => h.HeldBox? && h.o.val.ty == ty && ty in env.types && HoldsBoxed(env, heap, cells, h.o)
    case DynOf(kind) => h.HeldDyn? && ValidKind(kind) && HoldsObject(env, heap, cells, kind, h.o)
  }

  ghost function Blocks(h: Held): multiset<nat> {
    match h
    case Nothing => multiset{}
    case HeldValue(v) => FootKids(v.kids)
    case HeldBox(o) => Foot(o)
    case HeldDyn(o) => Foot(o)
  }

  ghost function AllBlocks(hs: seq<Held>): multiset<nat> {
    if hs == [] then multiset{} else AllBlocks(hs[..|hs| - 1]) + Blocks(hs[|hs| - 1])
  }

  ghost function AbsSlot(shape: Shape, h: Held): Slot {
    match h
    case Nothing => Empty
    case HeldValue(v) => Value(Abs(v))
    case HeldBox(o) => Boxed(Abs(o.val))
    case HeldDyn(o) => Dyn(if shape.DynOf? then shape.kind else Kind.Box, Abs(o.val))
  }

  ghost function AbsSlots(shapes: seq<Shape>, held: seq<Held>): seq<Slot>
    requires |shapes| == |held|
  {
    seq(|held|, i requires 0 <= i < |held| => AbsSlot(shapes[i], held[i]))
  }

  ghost predicate SlotOk(env: Env, s: State, i: nat, shape: Shape, h: Held)
    requires WfEnv(env)
  {
    if shape.NoShape? then h.Nothing? else i in s.stack && Holds(env, s.heap, s.stack[i], shape, h)
  }

  /** Every block is there at the start, owned or loose, and it is exactly one of these, once. */
  ghost predicate Accounts(start: HeapMap, heap: HeapMap, owned: multiset<nat>, loose: multiset<nat>) {
    forall h: nat :: owned[h] + loose[h] + Count(h in start) == Count(h in heap)
  }

  function Count(b: bool): nat { if b then 1 else 0 }

  /** Every variable holds what it should, and the heap is made of the blocks that were there at
      the start, those the variables own, and `loose`, each exactly once. */
  ghost predicate Ok(env: Env, start: HeapMap, s: State, shapes: seq<Shape>, held: seq<Held>, loose: multiset<nat>)
    requires WfEnv(env)
  {
    && |shapes| == |held|
    && (forall i :: 0 <= i < |held| ==> SlotOk(env, s, i, shapes[i], held[i]))
    && Accounts(start, s.heap, AllBlocks(held), loose)
    && (forall h :: h in start ==> h in s.heap && s.heap[h] == start[h])
  }

  // ----- blocks of all variables -----

  lemma {:induction false} BlocksSet(hs: seq<Held>, x: nat, h: Held, b: nat)
    requires x < |hs|
    ensures AllBlocks(hs[x := h])[b] + Blocks(hs[x])[b] == AllBlocks(hs)[b] + Blocks(h)[b]
    decreases |hs|
  {
    hide Blocks;
    var last := |hs| - 1;
    if x < last {
      BlocksSet(hs[..last], x, h, b);
      assert hs[x := h][..last] == hs[..last][x := h];
    } else {
      assert hs[x := h][..last] == hs[..last];
    }
  }

  lemma BlocksPush(hs: seq<Held>, h: Held)
    ensures AllBlocks(hs + [h]) == AllBlocks(hs) + Blocks(h)
  {
    assert (hs + [h])[..|hs|] == hs;
  }

  lemma BlocksIn(hs: seq<Held>, x: nat)
    requires x < |hs|
    ensures Blocks(hs[x]) <= AllBlocks(hs)
  {
    forall b ensures Blocks(hs[x])[b] <= AllBlocks(hs)[b] { BlocksSet(hs, x, Nothing, b); }
  }

  // ----- taking and putting -----

  lemma HoldsFrame(env: Env, h1: HeapMap, h2: HeapMap, cells: seq<Cell>, shape: Shape, h: Held)
    requires WfEnv(env) && Holds(env, h1, cells, shape, h) && SameOn(Blocks(h), h1, h2)
    ensures Holds(env, h2, cells, shape, h)
  {
    hide HoldsValue, HoldsObject, WfEnv, Foot, FootKids;
    match h
    case Nothing =>
    case HeldValue(v) => FrameValue(env, h1, h2, cells, v);
    case HeldBox(o) => FrameBoxed(env, h1, h2, cells, o);
    case HeldDyn(o) => FrameObject(env, h1, h2, cells, shape.kind, o);
  }

  /** Changing the heap outside the variables' blocks, keeping the accounts. */
  lemma Settle(env: Env, start: HeapMap, s: State, s': State, shapes: seq<Shape>, held: seq<Held>,
               loose: multiset<nat>, loose': multiset<nat>)
    requires WfEnv(env) && Ok(env, start, s, shapes, held, loose) && s'.stack == s.stack
    requires SameOn(AllBlocks(held), s.heap, s'.heap) && SameOn(multiset(start.Keys), s.heap, s'.heap)
    requires Accounts(start, s'.heap, AllBlocks(held), loose')
    ensures Ok(env, start, s', shapes, held, loose')
  {
    hide Holds, WfEnv, AllBlocks, Blocks;
    forall i | 0 <= i < |held| ensures SlotOk(env, s', i, shapes[i], held[i]) {
      BlocksIn(held, i);
      SameOnLess(Blocks(held[i]), AllBlocks(held), s.heap, s'.heap);
      if shapes[i] != NoShape {
        HoldsFrame(env, s.heap, s'.heap, s.stack[i], shapes[i], held[i]);
      }
    }
    forall h | h in start ensures h in s'.heap && s'.heap[h] == start[h] {
      assert h in multiset(start.Keys);
    }
  }

  lemma NoBlocks(h: nat)
    ensures Blocks(Nothing)[h] == 0
  {}

  lemma Minus(m: multiset<nat>, n: multiset<nat>, b: nat)
    requires n <= m
    ensures (m - n)[b] + n[b] == m[b]
  {}

  /** A variable is moved out of. */
  lemma Taken(env: Env, start: HeapMap, s: State, shapes: seq<Shape>, held: seq<Held>, loose: multiset<nat>, x: nat)
    requires WfEnv(env) && Ok(env, start, s, shapes, held, loose) && x < |held|
    ensures Ok(env, start, s, shapes[x := NoShape], held[x := Nothing], Blocks(held[x]) + loose)
    ensures AbsSlots(shapes[x := NoShape], held[x := Nothing]) == AbsSlots(shapes, held)[x := Empty]
  {
    hide Holds, WfEnv, AllBlocks, Blocks;
    forall h ensures AllBlocks(held[x := Nothing])[h] + Blocks(held[x])[h] == AllBlocks(held)[h] {
      BlocksSet(held, x, Nothing, h);
      NoBlocks(h);
    }
  }

  /** A moved-out or new variable is initialised. */
  lemma Given(env: Env, start: HeapMap, s: State, shapes: seq<Shape>, held: seq<Held>, loose: multiset<nat>,
              x: nat, cells: seq<Cell>, shape: Shape, h: Held)
    requires WfEnv(env) && Ok(env, start, s, shapes, held, loose) && x < |held| && held[x].Nothing?
    requires !shape.NoShape? && Holds(env, s.heap, cells, shape, h) && Blocks(h) <= loose
    ensures Ok(env, start, s.(stack := s.stack[x := cells]), shapes[x := shape], held[x := h], loose - Blocks(h))
    ensures AbsSlots(shapes[x := shape], held[x := h]) == AbsSlots(shapes, held)[x := AbsSlot(shape, h)]
  {
    hide Holds, WfEnv, AllBlocks, Blocks, Accounts, AbsSlot;
    GivenAccounts(start, s.heap, held, loose, x, h);
  }

  lemma GivenAccounts(start: HeapMap, heap: HeapMap, held: seq<Held>, loose: multiset<nat>, x: nat, h: Held)
    requires Accounts(start, heap, AllBlocks(held), loose) && x < |held| && held[x].Nothing? && Blocks(h) <= loose
    ensures Accounts(start, heap, AllBlocks(held[x := h]), loose - Blocks(h))
  {
    hide AllBlocks, Blocks;
    forall b: nat ensures AllBlocks(held[x := h])[b] + (loose - Blocks(h))[b] + Count(b in start) == Count(b in heap) {
      BlocksSet(held, x, h, b);
      NoBlocks(b);
      Minus(loose, Blocks(h), b);
      assert AllBlocks(held)[b] + loose[b] + Count(b in start) == Count(b in heap);
    }
  }

  lemma Pushed(env: Env, start: HeapMap, s: State, shapes: seq<Shape>, held: seq<Held>, loose: multiset<nat>,
               cells: seq<Cell>, shape: Shape, h: Held)
    requires WfEnv(env) && Ok(env, start, s, shapes, held, loose)
    requires !shape.NoShape? && Holds(env, s.heap, cells, shape, h) && Blocks(h) <= loose
    ensures Ok(env, start, s.(stack := s.stack[|held| := cells]), shapes + [shape], held + [h], loose - Blocks(h))
    ensures AbsSlots(shapes + [shape], held + [h]) == AbsSlots(shapes, held) + [AbsSlot(shape, h)]
  {
    hide Holds, WfEnv, AllBlocks, Blocks;
    BlocksPush(held, h);
    forall b ensures (loose - Blocks(h))[b] + Blocks(h)[b] == loose[b] { Minus(loose, Blocks(h), b); }
  }

  // ----- what the user's destructors see -----

  /** The destructors that ran, in order. */
  ghost function UserEvents(t: seq<Event>): seq<Dropped> {
    if t == [] then [] else
    UserEvents(t[..|t| - 1]) +
    match t[|t| - 1]
    case UserDrop(tok, ty, data) => [Dropped(tok, ty, data)]
    case _ => []
  }

  /** The values dropped whose type implements `Drop`. */
  ghost function UserLog(env: Env, log: seq<Dropped>): seq<Dropped> {
    if log == [] then [] else
    var d := log[|log| - 1];
    UserLog(env, log[..|log| - 1]) + if d.ty in env.types && env.types[d.ty].userDrop then [d] else []
  }

  lemma {:induction false} UserEventsAppend(t: seq<Event>, u: seq<Event>)
    ensures UserEvents(t + u) == UserEvents(t) + UserEvents(u)
    decreases |u|
  {
    if u == [] {
      assert t + u == t;
    } else {
      UserEventsAppend(t, u[..|u| - 1]);
      assert (t + u)[..|t + u| - 1] == t + u[..|u| - 1];
    }
  }

  lemma {:induction false} UserLogAppend(env: Env, t: seq<Dropped>, u: seq<Dropped>)
    ensures UserLog(env, t + u) == UserLog(env, t) + UserLog(env, u)
    decreases |u|
  {
    if u == [] {
      assert t + u == t;
    } else {
      UserLogAppend(env, t, u[..|u| - 1]);
      assert (t + u)[..|t + u| - 1] == t + u[..|u| - 1];
    }
  }

  /** The destructors run by the machine are those of the dropped tree, in the same order. */
  lemma {:induction false} DropSeen(env: Env, v: Val)
    ensures UserEvents(ValueDropTrace(env, v)) == UserLog(env, DropLog(Abs(v)))
    decreases v, |v.kids| + 1
  {
    var n := Abs(v);
    KidsSeen(env, v, |v.kids|);
    assert v.kids[..|v.kids|] == v.kids && n.kids[..|n.kids|] == n.kids;
    UserEventsAppend(UserDropTrace(env, v), KidsDropTrace(env, v.kids));
    UserLogAppend(env, [Dropped(n.tok, n.ty, n.data)], DropLogs(n.kids));
    OneSeen(env, v);
  }

  lemma OneSeen(env: Env, v: Val)
    ensures UserEvents(UserDropTrace(env, v)) == UserLog(env, [Dropped(v.tok, v.ty, v.data)])
  {
    assert [Dropped(v.tok, v.ty, v.data)][..0] == [];
    assert [UserDrop(v.tok, v.ty, v.data)][..0] == [];
  }

  lemma AbsKids(v: Val)
    ensures |Abs(v).kids| == |v.kids| && forall i :: 0 <= i < |v.kids| ==> Abs(v).kids[i] == Abs(v.kids[i].val)
  {}

  lemma SamePrefix<T>(s: seq<T>, k: nat)
    requires 0 < k <= |s|
    ensures s[..k][..k - 1] == s[..k - 1]
  {}

  lemma NoneSeen(env: Env)
    ensures UserEvents([]) == UserLog(env, [])
  {}

  lemma {:induction false} KidsSeen(env: Env, v: Val, k: nat)
    requires k <= |v.kids|
    ensures UserEvents(KidsDropTrace(env, v.kids[..k])) == UserLog(env, DropLogs(Abs(v).kids[..k]))
    decreases v, k
  {
    hide UserEvents, UserLog, DropTrace, DropLog, Abs;
    AbsKids(v);
    if k == 0 {
      NoneSeen(env);
    } else {
      KidsSeen(env, v, k - 1);
      ObjectSeen(env, v.kids[k - 1]);
      var kids, ns := v.kids[..k], Abs(v).kids[..k];
      SamePrefix(v.kids, k);
      SamePrefix(Abs(v).kids, k);
      UserEventsAppend(KidsDropTrace(env, kids[..k - 1]), DropTrace(env, kids[k - 1]));
      UserLogAppend(env, DropLogs(ns[..k - 1]), DropLog(ns[k - 1]));
    }
  }

  lemma {:induction false} ObjectSeen(env: Env, o: Obj)
    ensures UserEvents(DropTrace(env, o)) == UserLog(env, DropLog(Abs(o.val)))
    decreases o
  {
    DropSeen(env, o.val);
    if o.val.ty in env.types {
      FreeUnseen(o, env.types[o.val.ty].layout);
      UserEventsAppend(ValueDropTrace(env, o.val), Storage.FreeTrace(o, env.types[o.val.ty].layout));
    } else {
      assert DropTrace(env, o) == ValueDropTrace(env, o.val);
    }
  }

  lemma FreeUnseen(o: Obj, t: Layout)
    ensures UserEvents(Storage.FreeTrace(o, t)) == [] && UserEvents(Storage.AllocTrace(o, t)) == []
  {
    if o.loc.OnHeap? {
      assert [Free(o.loc.h, t)][..0] == [] && [Alloc(o.loc.h, t)][..0] == [];
    }
  }
}
