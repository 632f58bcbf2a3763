/** Running a client program step by step on the machine. */
module Runner {
  import opened Layout
  import opened Memory
  import opened Values
  import opened Client
  import opened Machine
  import Object
  import Storage
  import Dispatch
  import Any
  import Invisible

  // ----- keeping the accounts -----

  lemma LooseFacts(env: Env, start: HeapMap, s: State, shapes: seq<Shape>, held: seq<Held>, loose: multiset<nat>)
    requires WfEnv(env) && Ok(env, start, s, shapes, held, loose)
    ensures Unique(loose) && forall h :: h in loose ==> h in s.heap
  {}

  /** Releasing some of the loose blocks. */
  lemma Released(env: Env, start: HeapMap, s: State, shapes: seq<Shape>, held: seq<Held>,
                 loose: multiset<nat>, gone: multiset<nat>)
    requires WfEnv(env) && Ok(env, start, s, shapes, held, loose) && gone <= loose
    ensures Ok(env, start, s.(heap := Without(s.heap, gone)), shapes, held, loose - gone)
  {
    hide AllBlocks, Holds, SlotOk, WfEnv;
    forall h: nat ensures AllBlocks(held)[h] + (loose - gone)[h] + Count(h in start) ==
      Count(h in Without(s.heap, gone)) {
      Minus(loose, gone, h);
      assert AllBlocks(held)[h] + loose[h] + Count(h in start) == Count(h in s.heap);
    }
    forall h: nat | h in AllBlocks(held) || h in start ensures h !in gone {
      assert AllBlocks(held)[h] + loose[h] + Count(h in start) == Count(h in s.heap);
    }
    Settle(env, start, s, s.(heap := Without(s.heap, gone)), shapes, held, loose, loose - gone);
  }

  /** Allocating a block that becomes loose. */
  lemma Allocated(env: Env, start: HeapMap, s: State, s': State, shapes: seq<Shape>, held: seq<Held>,
                  o: Obj, t: Layout, data: seq<Cell>)
    requires WfEnv(env) && Ok(env, start, s, shapes, held, FootKids(o.val.kids)) && s'.stack == s.stack
    requires Storage.NewBlock(s.heap, s'.heap, o, t, data)
    ensures Ok(env, start, s', shapes, held, Foot(o))
  {
    hide AllBlocks, Holds, SlotOk, WfEnv, FootKids, Foot, Accounts;
    AccountsAlloc(start, s.heap, s'.heap, AllBlocks(held), o, t, data);
    Settle(env, start, s, s', shapes, held, FootKids(o.val.kids), Foot(o));
  }

  lemma AccountsAlloc(start: HeapMap, h1: HeapMap, h2: HeapMap, owned: multiset<nat>, o: Obj, t: Layout,
                      data: seq<Cell>)
    requires Accounts(start, h1, owned, FootKids(o.val.kids)) && Storage.NewBlock(h1, h2, o, t, data)
    ensures Accounts(start, h2, owned, Foot(o))
  {
    hide FootKids, Foot;
    forall h: nat ensures owned[h] + Foot(o)[h] + Count(h in start) == Count(h in h2) {
      FootCount(o, h);
      assert owned[h] + FootKids(o.val.kids)[h] + Count(h in start) == Count(h in h1);
    }
  }

  lemma FootCount(o: Obj, h: nat)
    ensures Foot(o)[h] == FootKids(o.val.kids)[h] + Count(o.loc == OnHeap(h))
  {}

  lemma Owned(start: HeapMap, heap: HeapMap, owned: multiset<nat>, loose: multiset<nat>)
    requires Accounts(start, heap, owned, loose)
    ensures Unique(owned) && (forall h :: h in owned ==> h in heap && h !in start && h !in loose)
  {}

  /** What inserting comes down to when it compiles. */
  lemma InsertParts(env: Env, w: World, x: nat, kind: Kind, y: nat)
    requires Compiles(env, ShapesOf(w.slots), Op.Insert(x, kind, y))
    ensures x < |w.slots| && y < |w.slots| && x != y && ValidKind(kind) && w.slots[y].Value?
    ensures ShapesOf(w.slots)[y] == ValueOf(w.slots[y].v.ty) && Accepts(env, kind, w.slots[y].v.ty)
    ensures w.slots[y].v.ty in env.types && |ShapesOf(w.slots)| == |w.slots|
    ensures ShapesOf(w.slots)[x].NoShape? || ShapesOf(w.slots)[x] == DynOf(kind)
    ensures Next(env, w, Op.Insert(x, kind, y)) ==
      (World(w.slots[y := Empty][x := Dyn(kind, w.slots[y].v)], w.log + SlotLog(w.slots[x]), w.next), Done)
  {
    hide SlotLog, Permitted;
  }

  lemma ValueHere(env: Env, heap: HeapMap, cells: seq<Cell>, ty: TypeId, h: Held)
    requires WfEnv(env) && Holds(env, heap, cells, ValueOf(ty), h)
    ensures h.HeldValue? && h.v.ty == ty && HoldsValue(env, heap, cells, h.v) && Abs(h.v).ty == ty
    ensures AbsSlot(ValueOf(ty), h) == Value(Abs(h.v))
    ensures Blocks(h) + multiset{} == FootKids(h.v.kids)
  {
    hide HoldsValue, WfEnv, FootKids;
  }

  lemma NextRejects(env: Env, w: World, op: Op)
    ensures !Compiles(env, ShapesOf(w.slots), op) ==> Next(env, w, op) == (w, Rejected)
  {}

  lemma {:induction false} NothingOwned(hs: seq<Held>)
    requires forall x :: 0 <= x < |hs| ==> hs[x].Nothing?
    ensures AllBlocks(hs) == multiset{}
    decreases |hs|
  {
    if hs != [] { NothingOwned(hs[..|hs| - 1]); }
  }

  lemma AccountsClosed(start: HeapMap, heap: HeapMap)
    requires Accounts(start, heap, multiset{}, multiset{})
    requires forall h :: h in start ==> h in heap && heap[h] == start[h]
    ensures heap == start
  {
    forall h | h in heap ensures h in start {
      assert multiset{}[h] + multiset{}[h] + Count(h in start) == Count(h in heap);
    }
  }

  lemma ReadOutAccounts(o: Obj)
    ensures Foot(o) - Here(o) == FootKids(o.val.kids) && Here(o) <= Foot(o)
  {}

  /** What a use of variable `x` in place changes. */
  lemma UsedFacts(env: Env, s: State, s': State, x: nat, kind: Kind, o: Obj, o': Obj)
    requires WfEnv(env) && ValidKind(kind) && Dispatch.Used(env, s, s', At(Stack(x), 0), kind, o, o')
    ensures Object.ObjectAt(env, s', At(Stack(x), 0), kind, o') && SamePlaces(o, o') && Foot(o') == Foot(o)
    ensures s'.heap.Keys == s.heap.Keys && forall h :: h in s.heap && h !in Foot(o) ==> s'.heap[h] == s.heap[h]
    ensures x in s.stack ==> x in s'.stack && |s'.stack[x]| == |s.stack[x]|
  {
    hide Object.ObjectAt, WfEnv, DynSize, Foot;
  }

  /** Using variable `x` in place leaves the other variables and the old heap alone. */
  lemma UsedOk(env: Env, start: HeapMap, s: State, s': State, shapes: seq<Shape>, held: seq<Held>, x: nat, o': Obj)
    requires WfEnv(env) && Ok(env, start, s, shapes, held, multiset{}) && x < |held|
    requires shapes[x].DynOf? && held[x].HeldDyn? && ValidKind(shapes[x].kind)
    requires Dispatch.Used(env, s, s', At(Stack(x), 0), shapes[x].kind, held[x].o, o') && x in s.stack
    requires |s.stack[x]| == DynSize(shapes[x].kind)
    ensures Ok(env, start, s', shapes, held[x := HeldDyn(o')], multiset{})
    ensures SamePlaces(held[x].o, o')
    ensures AbsSlots(shapes, held[x := HeldDyn(o')]) ==
            AbsSlots(shapes, held)[x := Dyn(shapes[x].kind, Abs(o'.val))]
  {
    hide HoldsObject, HoldsValue, Holds, SlotOk, WfEnv, AllBlocks, Foot, FootKids, Unique, DynSize, Object.ObjectAt,
         Abs,
         Dispatch.Used;
    UsedFacts(env, s, s', x, shapes[x].kind, held[x].o, o');
    var h' := HeldDyn(o');
    var held' := held[x := h'];
    forall b: nat ensures AllBlocks(held')[b] == AllBlocks(held)[b] { BlocksSet(held, x, h', b); }
    Owned(start, s.heap, AllBlocks(held), multiset{});
    BlocksIn(held, x);
    forall i | 0 <= i < |held'| ensures SlotOk(env, s', i, shapes[i], held'[i]) {
      if i == x {
        UsedSlot(env, s', x, shapes[x].kind, o');
      } else {
        OtherBlocks(start, s.heap, held, i, x);
        OtherSlot(env, s, s', x, shapes[x].kind, held[x], o', i, shapes[i], held[i]);
      }
    }
  }

  lemma OtherSlot(env: Env, s: State, s': State, x: nat, kind: Kind, hx: Held, o': Obj, i: nat, shape: Shape, h: Held)
    requires WfEnv(env) && SlotOk(env, s, i, shape, h) && i != x && hx.HeldDyn? && Blocks(h) !! Blocks(hx)
    requires ValidKind(kind) && Dispatch.Used(env, s, s', At(Stack(x), 0), kind, hx.o, o')
    ensures SlotOk(env, s', i, shape, h)
  {
    hide HoldsObject, HoldsValue, Holds, WfEnv, Foot, FootKids, Unique, DynSize, Object.ObjectAt;
    if shape != NoShape {
      HoldsFrame(env, s.heap, s'.heap, s.stack[i], shape, h);
    }
  }

  lemma OtherBlocks(start: HeapMap, heap: HeapMap, held: seq<Held>, i: nat, x: nat)
    requires Accounts(start, heap, AllBlocks(held), multiset{}) && i < |held| && x < |held| && i != x
    ensures Blocks(held[i]) !! Blocks(held[x])
  {
    hide Blocks, AllBlocks;
    forall b: nat ensures Blocks(held[i])[b] == 0 || Blocks(held[x])[b] == 0 {
      BlocksSet(held, x, Nothing, b);
      BlocksSet(held[x := Nothing], i, Nothing, b);
      NoBlocks(b);
      assert AllBlocks(held)[b] + multiset{}[b] + Count(b in start) == Count(b in heap);
    }
  }

  lemma UsedSlot(env: Env, s: State, x: nat, kind: Kind, o: Obj)
    requires WfEnv(env) && Object.ObjectAt(env, s, At(Stack(x), 0), kind, o)
    ensures ValidKind(kind) && x in s.stack
    ensures |s.stack[x]| == DynSize(kind) ==> SlotOk(env, s, x, DynOf(kind), HeldDyn(o))
  {
    hide HoldsValue, WfEnv, Unique;
    assert |s.stack[x]| == DynSize(kind) ==> s.stack[x][0..DynSize(kind)] == s.stack[x];
  }

  lemma Unboxed(o: Obj, o': Obj)
    requires o'.val == o.val && (o'.loc == Inline || o'.loc == o.loc)
    ensures o'.loc != o.loc ==> Foot(o) - Here(o) == Foot(o') && Here(o) <= Foot(o)
    ensures o'.loc == o.loc ==> o' == o
  {}

  lemma ShapesAgree(env: Env, start: HeapMap, s: State, shapes: seq<Shape>, held: seq<Held>, loose: multiset<nat>)
    requires WfEnv(env) && Ok(env, start, s, shapes, held, loose)
    ensures ShapesOf(AbsSlots(shapes, held)) == shapes
  {
    forall i | 0 <= i < |held| ensures ShapeOf(AbsSlot(shapes[i], held[i])) == shapes[i] {
      assert SlotOk(env, s, i, shapes[i], held[i]);
    }
  }

  /** A variable of type `DynObject` is an object in its stack slot. */
  lemma SlotObject(env: Env, s: State, x: nat, kind: Kind, o: Obj)
    requires WfEnv(env) && ValidKind(kind) && x in s.stack && HoldsObject(env, s.heap, s.stack[x], kind, o)
    requires Unique(Foot(o))
    ensures Object.ObjectAt(env, s, At(Stack(x), 0), kind, o)
    ensures |s.stack[x]| == DynSize(kind)
  {
    hide HoldsValue, Unique, WfEnv;
    assert s.stack[x][0..|s.stack[x]|] == s.stack[x];
  }

  lemma SlotValue(env: Env, s: State, x: nat, v: Val)
    requires WfEnv(env) && x in s.stack && HoldsValue(env, s.heap, s.stack[x], v) && Unique(FootKids(v.kids))
    ensures Object.ValueAt(env, s, At(Stack(x), 0), v)
  {
    hide HoldsField, Unique, WfEnv;
    assert s.stack[x][0..|s.stack[x]|] == s.stack[x];
  }

  /** The cells of a value of type `ty` under construction: its bytes and its first fields. */
  ghost predicate Partial(env: Env, heap: HeapMap, cells: seq<Cell>, ty: TypeId, data: seq<byte>, kids: seq<Obj>)
    requires WfEnv(env) && ty in env.types
  {
    var d := env.types[ty];
    && |cells| == d.layout.size && |data| == d.plain && |kids| <= |d.fields|
    && cells[..d.plain] == BytesAsCells(data)
    && forall j :: 0 <= j < |kids| ==> HoldsField(env, heap, cells, d, kids[j], j)
  }

  lemma PartialStart(env: Env, heap: HeapMap, cells: seq<Cell>, ty: TypeId, data: seq<byte>)
    requires WfEnv(env) && ty in env.types && |cells| == env.types[ty].layout.size && |data| == env.types[ty].plain
    ensures |data| <= |cells| && Partial(env, heap, Patch(cells, 0, BytesAsCells(data)), ty, data, [])
  {
    hide WfEnv, WfType, BytesAsCells, Patch;
    KnownType(env, ty);
    Dispatch.PatchStart(cells, BytesAsCells(data));
  }

  lemma PartialNext(env: Env, heap: HeapMap, cells: seq<Cell>, ty: TypeId, data: seq<byte>, kids: seq<Obj>,
                    part: seq<Cell>, o: Obj)
    requires WfEnv(env) && ty in env.types && Partial(env, heap, cells, ty, data, kids)
    requires |kids| < |env.types[ty].fields| && ValidKind(env.types[ty].fields[|kids|].kind)
    requires HoldsObject(env, heap, part, env.types[ty].fields[|kids|].kind, o)
    ensures env.types[ty].fields[|kids|].off + |part| <= |cells|
    ensures Partial(env, heap, Patch(cells, env.types[ty].fields[|kids|].off, part), ty, data, kids + [o])
  {
    hide WfEnv, WfType, HoldsValue, HoldsObject, BytesAsCells, Patch, DynSize;
    KnownType(env, ty);
    var d, i := env.types[ty], |kids|;
    var f := d.fields[i];
    FieldPlace(env, ty, i);
    ObjectSize(env, heap, part, f.kind, o);
    var cells' := Patch(cells, f.off, part);
    assert cells'[..d.plain] == cells[..d.plain];
    forall j | 0 <= j < i + 1 ensures HoldsField(env, heap, cells', d, (kids + [o])[j], j) {
      if j < i {
        FieldPlace(env, ty, j);
        FieldsApart(env, ty, j, i);
        PatchApart(cells, f.off, part, d.fields[j].off, DynSize(d.fields[j].kind));
        assert HoldsField(env, heap, cells, d, kids[j], j);
      } else {
        assert cells'[f.off..f.off + DynSize(f.kind)] == part;
      }
    }
  }

  lemma PatchApart(c: seq<Cell>, off: nat, new_: seq<Cell>, off': nat, n: nat)
    requires off + |new_| <= |c| && off' + n <= |c| && (off + |new_| <= off' || off' + n <= off)
    ensures Patch(c, off, new_)[off'..off' + n] == c[off'..off' + n]
  {}

  /** After `i` parts have been moved, they are gone and the others are still there. */
  predicate Blanked(env: Env, before: seq<Shape>, after: seq<Shape>, ty: TypeId, data: seq<byte>, parts: seq<nat>,
                    i: nat)
    requires i <= |parts|
  {
    && Compiles(env, before, Op.Make(ty, data, parts)) && |after| == |before|
    && (forall x :: 0 <= x < |after| ==> after[x] == if x in parts[..i] then NoShape else before[x])
  }

  /** The next part has not been moved yet: no variable is moved twice. */
  lemma StillThere(env: Env, before: seq<Shape>, after: seq<Shape>, ty: TypeId, data: seq<byte>, parts: seq<nat>,
                   i: nat)
    requires i < |parts| && Blanked(env, before, after, ty, data, parts, i)
    ensures ty in env.types && i < |env.types[ty].fields| && parts[i] < |after| && parts[i] !in parts[..i]
    ensures after[parts[i]] == DynOf(env.types[ty].fields[i].kind)
    ensures Blanked(env, before, after[parts[i] := NoShape], ty, data, parts, i + 1)
  {
    assert IsDyn(before, parts[i], env.types[ty].fields[i].kind);
    assert parts[..i + 1] == parts[..i] + [parts[i]];
  }

  ghost predicate IsPart(slots: seq<Slot>, x: nat, o: Obj) {
    x < |slots| && slots[x].Dyn? && slots[x].v == Abs(o.val)
  }

  lemma MadeWhole(env: Env, heap: HeapMap, cells: seq<Cell>, v: Val)
    requires WfEnv(env) && v.ty in env.types && Partial(env, heap, cells, v.ty, v.data, v.kids)
    requires |v.kids| == |env.types[v.ty].fields|
    ensures HoldsValue(env, heap, cells, v)
  {}

  lemma NoKids()
    ensures FootKids([]) == multiset{}
  {}

  lemma OneMoreKid(kids: seq<Obj>, o: Obj)
    ensures FootKids(kids + [o]) == Foot(o) + FootKids(kids)
  {
    assert (kids + [o])[..|kids|] == kids;
  }

  lemma ObjectSize(env: Env, heap: HeapMap, cells: seq<Cell>, kind: Kind, o: Obj)
    requires WfEnv(env) && ValidKind(kind) && HoldsObject(env, heap, cells, kind, o)
    ensures |cells| == DynSize(kind)
  {}

  // ----- addresses -----

  ghost function NestedPlace(env: Env, at: Pointer, o: Obj, path: seq<nat>): Pointer
    decreases |path|
  {
    if o.val.ty !in env.types then Dangling(1) else
    var p, fields := Storage.PlaceOf(env, at, o), env.types[o.val.ty].fields;
    if path == [] then p
    else if path[0] < |o.val.kids| && path[0] < |fields| then
      NestedPlace(env, PointerAdd(p, fields[path[0]].off), o.val.kids[path[0]], path[1..])
    else Dangling(1)
  }

  lemma {:induction false} PlacesStay(env: Env, at: Pointer, o: Obj, o': Obj, path: seq<nat>)
    requires SamePlaces(o, o')
    ensures NestedPlace(env, at, o, path) == NestedPlace(env, at, o', path)
    decreases |path|
  {
    if o.val.ty in env.types && path != [] && path[0] < |o.val.kids| && path[0] < |env.types[o.val.ty].fields| {
      var p := Storage.PlaceOf(env, at, o);
      PlacesStay(env, PointerAdd(p, env.types[o.val.ty].fields[path[0]].off), o.val.kids[path[0]], o'.val.kids[path[0]],
        path[1..]);
    }
  }

  /** What a variable holds, the bytes of its values aside. */
  ghost predicate Stays(h: Held, h': Held) {
    match (h, h')
    case (HeldDyn(o), HeldDyn(o')) => SamePlaces(o, o')
    case _ => h' == h
  }

  lemma StaysRefl(h: Held)
    ensures Stays(h, h)
  {
    if h.HeldDyn? { SamePlacesRefl(h.o); }
  }

  lemma StaysTrans(a: Held, b: Held, c: Held)
    requires Stays(a, b) && Stays(b, c)
    ensures Stays(a, c)
  {
    if a.HeldDyn? { SamePlacesTrans(a.o, b.o, c.o); }
  }

  lemma PlaceStays(env: Env, at: Pointer, h: Held, h': Held, path: seq<nat>)
    requires Stays(h, h')
    ensures h.HeldDyn? == h'.HeldDyn?
    ensures h.HeldDyn? ==> NestedPlace(env, at, h.o, path) == NestedPlace(env, at, h'.o, path)
  {
    if h.HeldDyn? { PlacesStay(env, at, h.o, h'.o, path); }
  }

  /** No statement of the program touches variable `x`. */
  predicate Untouched(ops: seq<Op>, x: nat) {
    forall i :: 0 <= i < |ops| ==> !Touches(ops[i], x)
  }

  lemma AllStay(held: seq<Held>, x: nat, o: Obj)
    requires x < |held| && held[x].HeldDyn? && SamePlaces(held[x].o, o)
    ensures forall y :: 0 <= y < |held| ==> Stays(held[y], held[x := HeldDyn(o)][y])
  {
    forall y | 0 <= y < |held| && y != x { StaysRefl(held[y]); }
  }

  class Runner {
    const env: Env
    const mem: Memory
    ghost const start: HeapMap
    var shapes: seq<Shape>
    ghost var held: seq<Held>
    ghost var log: seq<Dropped>
    ghost var next: nat

    ghost predicate Inv(loose: multiset<nat>)
      reads this, mem
    {
      && WfEnv(env) && mem.Valid() && Ok(env, start, mem.cur, shapes, held, loose)
      && UserEvents(mem.trace) == UserLog(env, log)
    }

    /** What the client sees. */
    ghost function View(): World
      requires |shapes| == |held|
      reads this
    {
      World(AbsSlots(shapes, held), log, next)
    }

    /** Where the value of the object in variable `x` is, or of the object nested in it that is
        reached through the fields `path`. */
    ghost function ValuePlace(x: nat, path: seq<nat>): Pointer
      reads this
    {
      if x < |held| && held[x].HeldDyn? then NestedPlace(env, At(Stack(x), 0), held[x].o, path) else Dangling(1)
    }

    /** No variable yet, over any heap. */
    constructor (env: Env, heap: HeapMap)
      requires WfEnv(env)
      ensures Inv(multiset{}) && View() == World([], [], 0)
      ensures fresh(mem) && start == heap && this.env == env
    {
      this.env, start, shapes, held, log, next := env, heap, [], [], [], 0;
      mem := new Memory(State(map[], heap));
    }

    /** Moving out of variable `x`: its blocks become loose, its cells are still there. */
    method Take(x: nat, ghost loose: multiset<nat>) returns (cells: seq<Cell>, ghost h: Held)
      requires Inv(loose) && x < |shapes| && !shapes[x].NoShape?
      modifies this
      ensures h == old(held)[x] && Inv(Blocks(h) + loose) && log == old(log) && next == old(next)
      ensures shapes == old(shapes)[x := NoShape] && held == old(held)[x := Nothing]
      ensures x in mem.cur.stack && cells == mem.cur.stack[x] && Holds(env, mem.cur.heap, cells, old(shapes)[x], h)
      ensures View() == old(View()).(slots := old(View()).slots[x := Empty])
      ensures Unique(Blocks(h) + loose) && forall b :: b in Blocks(h) + loose ==> b in mem.cur.heap
    {
      hide Holds, Blocks, Memory.Valid, WfEnv, UserEvents, UserLog;
      h := held[x];
      assert SlotOk(env, mem.cur, x, shapes[x], held[x]);
      cells := mem.cur.stack[x];
      Taken(env, start, mem.cur, shapes, held, loose, x);
      shapes, held := shapes[x := NoShape], held[x := Nothing];
      LooseFacts(env, start, mem.cur, shapes, held, Blocks(h) + loose);
    }

    /** A new variable. */
    method Push(cells: seq<Cell>, shape: Shape, ghost h: Held, ghost loose: multiset<nat>)
      requires Inv(loose) && !shape.NoShape? && Holds(env, mem.cur.heap, cells, shape, h) && Blocks(h) <= loose
      modifies this, mem
      ensures Inv(loose - Blocks(h)) && log == old(log) && next == old(next)
      ensures shapes == old(shapes) + [shape] && held == old(held) + [h]
      ensures View() == old(View()).(slots := old(View()).slots + [AbsSlot(shape, h)])
    {
      hide Holds, Blocks, WfEnv, UserEvents, UserLog;
      Pushed(env, start, mem.cur, shapes, held, loose, cells, shape, h);
      mem.SetSlot(|shapes|, cells);
      shapes, held := shapes + [shape], held + [h];
    }

    /** A moved-out variable is initialised again. */
    method Put(x: nat, cells: seq<Cell>, shape: Shape, ghost h: Held, ghost loose: multiset<nat>)
      requires Inv(loose) && !shape.NoShape? && Holds(env, mem.cur.heap, cells, shape, h) && Blocks(h) <= loose
      requires x < |shapes| && shapes[x].NoShape?
      modifies this, mem
      ensures Inv(loose - Blocks(h)) && log == old(log) && next == old(next)
      ensures shapes == old(shapes)[x := shape] && held == old(held)[x := h]
      ensures mem.cur == old(mem.cur).(stack := old(mem.cur).stack[x := cells])
      ensures View() == old(View()).(slots := old(View()).slots[x := AbsSlot(shape, h)])
    {
      hide Holds, Blocks, WfEnv, UserEvents, UserLog;
      assert SlotOk(env, mem.cur, x, shapes[x], held[x]);
      Given(env, start, mem.cur, shapes, held, loose, x, cells, shape, h);
      mem.SetSlot(x, cells);
      shapes, held := shapes[x := shape], held[x := h];
    }

    // ----- the operations -----

    /** `DynObject::new` on a value that was moved out of its variable. */
    method Construct(kind: Kind, ty: TypeId, data: seq<Cell>, ghost v: Val) returns (cells: seq<Cell>, ghost o: Obj)
      requires Inv(FootKids(v.kids)) && v.ty == ty && HoldsValue(env, mem.cur.heap, data, v) && Accepts(env, kind, ty)
      modifies mem
      ensures Inv(Foot(o)) && o.val == v && HoldsObject(env, mem.cur.heap, cells, kind, o)
      ensures mem.cur.stack == old(mem.cur).stack && View() == old(View())
    {
      hide HoldsValue, HoldsObject, Ok, UserEvents, UserLog, WfEnv, Memory.Valid, Foot, FootKids, Permitted;
      LooseFacts(env, start, mem.cur, shapes, held, FootKids(v.kids));
      cells, o := Object.New(mem, env, kind, ty, data, v);
      Allocated(env, start, old(mem.cur), mem.cur, shapes, held, o, env.types[ty].layout, data);
      FreeUnseen(o, env.types[ty].layout);
      UserEventsAppend(old(mem.trace), Storage.AllocTrace(o, env.types[ty].layout));
    }

    /** A value of type `ty` is built from plain bytes and from objects that are moved into it. */
    method Make(ty: TypeId, data: seq<byte>, parts: seq<nat>)
      requires Inv(multiset{}) && Compiles(env, shapes, Op.Make(ty, data, parts))
      modifies this, mem
      ensures Inv(multiset{}) && |old(held)| <= |held|
      ensures forall y :: 0 <= y < |old(held)| && y !in parts ==> held[y] == old(held)[y]
      ensures (View(), Done) == Next(env, old(View()), Op.Make(ty, data, parts))
    {
      hide HoldsValue, HoldsObject, HoldsField, Ok, UserEvents, UserLog, WfEnv, Memory.Valid, Foot, FootKids, Partial;
      ShapesHere(multiset{});
      var cells, kids := Gather(ty, data, parts);
      ShapesHere(FootKids(kids));
      ghost var v := Val(next, ty, data, kids);
      MadeWhole(env, mem.cur.heap, cells, v);
      Push(cells, ValueOf(ty), HeldValue(v), FootKids(kids));
      assert FootKids(kids) - FootKids(kids) == multiset{};
      next := next + 1;
      assert Abs(v).kids == PartsOf(old(View()).slots, parts);
    }

    /** Moving the parts into place, one after the other. */
    method Gather(ty: TypeId, data: seq<byte>, parts: seq<nat>) returns (cells: seq<Cell>, ghost kids: seq<Obj>)
      requires Inv(multiset{}) && Compiles(env, shapes, Op.Make(ty, data, parts))
      modifies this
      ensures Inv(FootKids(kids)) && Partial(env, mem.cur.heap, cells, ty, data, kids) && |kids| == |parts|
      ensures View() == old(View()).(slots := Cleared(old(View()).slots, parts))
      ensures forall j :: 0 <= j < |parts| ==> IsPart(old(View()).slots, parts[j], kids[j])
      ensures |held| == |old(held)| && forall y :: 0 <= y < |held| && y !in parts ==> held[y] == old(held)[y]
    {
      hide HoldsValue, HoldsObject, HoldsField, Ok, UserEvents, UserLog, WfEnv, Memory.Valid, Foot, FootKids, Inv,
         Partial,
           Patch, View, AbsSlots;
      ShapesHere(multiset{});
      var d := env.types[ty];
      cells := seq(d.layout.size, (_: nat) => Uninit);
      PartialStart(env, mem.cur.heap, cells, ty, data);
      cells := Patch(cells, 0, BytesAsCells(data));
      kids := [];
      NoKids();
      var i := 0;
      while i < |parts|
        invariant 0 <= i <= |parts| == |d.fields| && |kids| == i && d == env.types[ty] && |shapes| == |held|
        invariant Inv(FootKids(kids)) && Partial(env, mem.cur.heap, cells, ty, data, kids)
        invariant Blanked(env, old(shapes), shapes, ty, data, parts, i)
        invariant View() == old(View()).(slots := Cleared(old(View()).slots, parts[..i]))
        invariant forall j :: 0 <= j < i ==> IsPart(old(View()).slots, parts[j], kids[j])
        invariant |held| == |old(held)| && forall y :: 0 <= y < |held| && y !in parts[..i] ==> held[y] == old(held)[y]
      {
        var x, kind := parts[i], d.fields[i].kind;
        StillThere(env, old(shapes), shapes, ty, data, parts, i);
        SlotHere(x, FootKids(kids));
        FieldPlace(env, ty, i);
        var part, h := Take(x, FootKids(kids));
        PartialNext(env, mem.cur.heap, cells, ty, data, kids, part, h.o);
        cells := Patch(cells, d.fields[i].off, part);
        OneMoreKid(kids, h.o);
        assert parts[..i + 1] == parts[..i] + [x];
        kids := kids + [h.o];
        i := i + 1;
      }
      assert parts[..i] == parts;
    }

    method New(kind: Kind, x: nat)
      requires Inv(multiset{}) && Compiles(env, shapes, Op.New(kind, x))
      modifies this, mem
      ensures Inv(multiset{}) && |old(held)| <= |held|
      ensures forall y :: 0 <= y < |old(held)| && y != x ==> held[y] == old(held)[y]
      ensures (View(), Done) == Next(env, old(View()), Op.New(kind, x))
    {
      hide HoldsValue, HoldsObject, Ok, UserEvents, UserLog, WfEnv, Memory.Valid, Foot, FootKids, Permitted, Inv;
      ShapesHere(multiset{});
      var ty := shapes[x].ty;
      var data, h := Take(x, multiset{});
      assert Blocks(h) + multiset{} == FootKids(h.v.kids);
      var cells, o := Construct(kind, ty, data, h.v);
      Push(cells, DynOf(kind), HeldDyn(o), Foot(o));
      assert Foot(o) - Foot(o) == multiset{};
    }

    method BoxNew(x: nat)
      requires Inv(multiset{}) && Compiles(env, shapes, Op.BoxNew(x))
      modifies this, mem
      ensures Inv(multiset{}) && |old(held)| <= |held|
      ensures forall y :: 0 <= y < |old(held)| && y != x ==> held[y] == old(held)[y]
      ensures (View(), Done) == Next(env, old(View()), Op.BoxNew(x))
    {
      hide HoldsValue, HoldsObject, Ok, UserEvents, UserLog, WfEnv, Memory.Valid, Foot, FootKids;
      ShapesHere(multiset{});
      var ty := shapes[x].ty;
      var data, h := Take(x, multiset{});
      assert Blocks(h) + multiset{} == FootKids(h.v.kids);
      label taken:
      var cells, o := Storage.BoxNew(mem, env, ty, data, h.v);
      Allocated(env, start, old@taken(mem.cur), mem.cur, shapes, held, o, env.types[ty].layout, data);
      FreeUnseen(o, env.types[ty].layout);
      UserEventsAppend(old(mem.trace), Storage.AllocTrace(o, env.types[ty].layout));
      Push(cells, BoxOf(ty), HeldBox(o), Foot(o));
      assert Foot(o) - Foot(o) == multiset{};
    }

    method FromBox(kind: Kind, x: nat)
      requires Inv(multiset{}) && Compiles(env, shapes, Op.FromBox(kind, x))
      modifies this, mem
      ensures Inv(multiset{}) && |old(held)| <= |held|
      ensures forall y :: 0 <= y < |old(held)| && y != x ==> held[y] == old(held)[y]
      ensures (View(), Done) == Next(env, old(View()), Op.FromBox(kind, x))
    {
      hide HoldsValue, HoldsObject, Ok, UserEvents, UserLog, WfEnv, Memory.Valid, Foot, FootKids, BoxShape;
      ShapesHere(multiset{});
      var ty := shapes[x].ty;
      var boxed, h := Take(x, multiset{});
      assert Blocks(h) + multiset{} == Foot(h.o);
      label taken:
      var cells, o := Object.FromBox(mem, env, kind, ty, boxed, h.o);
      Unboxed(h.o, o);
      if o.loc != h.o.loc {
        Released(env, start, old@taken(mem.cur), shapes, held, Foot(h.o), Here(h.o));
        FreeUnseen(h.o, env.types[ty].layout);
        UserEventsAppend(old(mem.trace), Storage.FreeTrace(h.o, env.types[ty].layout));
      } else {
        assert mem.trace == old(mem.trace);
      }
      Push(cells, DynOf(kind), HeldDyn(o), Foot(o));
      assert Foot(o) - Foot(o) == multiset{};
    }

    method Move(x: nat)
      requires Inv(multiset{}) && Compiles(env, shapes, Op.Move(x))
      modifies this, mem
      ensures Inv(multiset{}) && |old(held)| <= |held|
      ensures forall y :: 0 <= y < |old(held)| && y != x ==> held[y] == old(held)[y]
      ensures (View(), Done) == Next(env, old(View()), Op.Move(x))
    {
      hide HoldsValue, HoldsObject, Ok, UserEvents, UserLog, WfEnv, Memory.Valid, Foot, FootKids, Inv;
      ShapesHere(multiset{});
      var shape := shapes[x];
      var cells, h := Take(x, multiset{});
      assert Blocks(h) + multiset{} == Blocks(h);
      Push(cells, shape, h, Blocks(h));
      assert Blocks(h) - Blocks(h) == multiset{};
    }

    /** `DynObject` methods on the variable in place. */
    method Use(x: nat, path: seq<Step>, act: Action) returns (out: Outcome)
      requires Inv(multiset{}) && Compiles(env, shapes, Op.Use(x, path, act))
      modifies this, mem
      ensures Inv(multiset{}) && shapes == old(shapes) && |held| == |old(held)|
      ensures forall y :: 0 <= y < |held| ==> Stays(old(held)[y], held[y])
      ensures (View(), out) == Next(env, old(View()), Op.Use(x, path, act))
      ensures forall y, fields :: ValuePlace(y, fields) == old(ValuePlace(y, fields))
    {
      hide HoldsValue, HoldsObject, Ok, UserEvents, UserLog, WfEnv, Memory.Valid, Foot, FootKids, Dispatch.Used;
      ShapesHere(multiset{});
      DynHere(x, multiset{});
      ghost var o := held[x].o;
      ghost var o';
      out, o' := Dispatch.Access(mem, env, At(Stack(x), 0), shapes[x].kind, path, act, o);
      AccessKeepsType(env, Abs(o.val), path, act);
      UsedOk(env, start, old(mem.cur), mem.cur, shapes, held, x, o');
      held := held[x := HeldDyn(o')];
      AllStay(old(held), x, o');
      forall y, fields ensures ValuePlace(y, fields) == old(ValuePlace(y, fields)) {
        if y == x { PlacesStay(env, At(Stack(x), 0), o, o', fields); }
      }
    }

    method Downcast(x: nat, ty: TypeId) returns (out: Outcome)
      requires Inv(multiset{}) && Compiles(env, shapes, Op.Downcast(x, ty))
      modifies this, mem
      ensures Inv(multiset{}) && |old(held)| <= |held|
      ensures forall y :: 0 <= y < |old(held)| && y != x ==> held[y] == old(held)[y]
      ensures (View(), out) == Next(env, old(View()), Op.Downcast(x, ty))
    {
      hide HoldsValue, HoldsObject, Ok, UserEvents, UserLog, WfEnv, Memory.Valid, Foot, FootKids;
      ShapesHere(multiset{});
      DynHere(x, multiset{});
      var shape := shapes[x];
      assert View().slots[x] == Dyn(shape.kind, Abs(held[x].o.val));
      var cells, h := Take(x, multiset{});
      assert Blocks(h) + multiset{} == Foot(h.o);
      label taken:
      var r := Any.Downcast(mem, env, At(Stack(x), 0), shape.kind, ty, h.o);
      if r.Some? {
        ReadOutAccounts(h.o);
        Released(env, start, old@taken(mem.cur), shapes, held, Foot(h.o), Here(h.o));
        FreeUnseen(h.o, env.types[ty].layout);
        UserEventsAppend(old(mem.trace), Storage.FreeTrace(h.o, env.types[ty].layout));
        Push(r.value, ValueOf(ty), HeldValue(h.o.val), FootKids(h.o.val.kids));
        assert FootKids(h.o.val.kids) - FootKids(h.o.val.kids) == multiset{};
        out := Done;
      } else {
        Put(x, cells, shape, h, Blocks(h));
        assert Blocks(h) - Blocks(h) == multiset{};
        assert View().slots == old(View()).slots;
        out := NotA;
      }
    }

    method Drop(x: nat)
      requires Inv(multiset{}) && Compiles(env, shapes, Op.Drop(x))
      modifies this, mem
      ensures Inv(multiset{}) && |old(held)| <= |held|
      ensures forall y :: 0 <= y < |old(held)| && y != x ==> held[y] == old(held)[y]
      ensures (View(), Done) == Next(env, old(View()), Op.Drop(x))
    {
      hide HoldsValue, HoldsObject, HoldsBoxed, Ok, UserEvents, UserLog, WfEnv, Memory.Valid, Foot, FootKids;
      ShapesHere(multiset{});
      var shape := shapes[x];
      var cells, h := Take(x, multiset{});
      assert Blocks(h) + multiset{} == Blocks(h);
      DropHeld(x, cells, shape, h, Blocks(h));
      assert Blocks(h) - Blocks(h) == multiset{};
    }

    /** The end of the life of what was in variable `x`. */
    method DropHeld(x: nat, cells: seq<Cell>, shape: Shape, ghost h: Held, ghost loose: multiset<nat>)
      requires Inv(loose) && !shape.NoShape? && Holds(env, mem.cur.heap, cells, shape, h) && Blocks(h) <= loose
      requires x in mem.cur.stack && mem.cur.stack[x] == cells
      modifies mem, this`log
      ensures Inv(loose - Blocks(h)) && mem.cur.stack == old(mem.cur).stack
      ensures mem.cur.heap == Without(old(mem.cur).heap, Blocks(h))
      ensures log == old(log) + SlotLog(AbsSlot(shape, h))
    {
      hide HoldsValue, HoldsObject, HoldsBoxed, Ok, UserEvents, UserLog, WfEnv, Memory.Valid, Foot, FootKids;
      LooseFacts(env, start, mem.cur, shapes, held, loose);
      UniqueSub(Blocks(h), loose);
      match shape {
        case ValueOf(ty) =>
          SlotValue(env, mem.cur, x, h.v);
          Object.DropValue(mem, env, At(Stack(x), 0), ty, h.v);
          DropSeen(env, h.v);
          UserEventsAppend(old(mem.trace), Object.ValueDropTrace(env, h.v));
        case BoxOf(ty) =>
          Object.DropBox(mem, env, ty, cells, h.o);
          ObjectSeen(env, h.o);
          UserEventsAppend(old(mem.trace), Object.DropTrace(env, h.o));
        case DynOf(kind) =>
          SlotObject(env, mem.cur, x, kind, h.o);
          Object.DropObject(mem, env, At(Stack(x), 0), kind, h.o);
          ObjectSeen(env, h.o);
          UserEventsAppend(old(mem.trace), Object.DropTrace(env, h.o));
      }
      Released(env, start, old(mem.cur), shapes, held, loose, Blocks(h));
      ghost var dropped := SlotLog(AbsSlot(shape, h));
      UserLogAppend(env, log, dropped);
      log := log + dropped;
    }

    /** `Option::insert`: the old object, if any, is dropped and the variable overwritten. */
    method Replace(x: nat, kind: Kind, cells: seq<Cell>, ghost o: Obj)
      requires Inv(Foot(o)) && ValidKind(kind) && HoldsObject(env, mem.cur.heap, cells, kind, o)
      requires x < |shapes| && (shapes[x].NoShape? || shapes[x] == DynOf(kind))
      modifies this, mem
      ensures Inv(multiset{}) && shapes == old(shapes)[x := DynOf(kind)] && held == old(held)[x := HeldDyn(o)]
      ensures View() == World(old(View()).slots[x := Dyn(kind, Abs(o.val))],
                              old(View()).log + SlotLog(old(View()).slots[x]), old(View()).next)
    {
      hide HoldsValue, HoldsObject, Ok, UserEvents, UserLog, WfEnv, Memory.Valid, Foot, FootKids, SlotLog, Inv;
      ShapesHere(Foot(o));
      SlotHere(x, Foot(o));
      if shapes[x].DynOf? {
        var oldCells, was := Take(x, Foot(o));
        FrameAway(mem.cur.heap, Blocks(was), Foot(o));
        DropHeld(x, oldCells, DynOf(kind), was, Blocks(was) + Foot(o));
        assert Blocks(was) + Foot(o) - Blocks(was) == Foot(o);
        FrameObject(env, old(mem.cur).heap, mem.cur.heap, cells, kind, o);
      } else {
        NothingLogged(old(log));
      }
      Put(x, cells, DynOf(kind), HeldDyn(o), Foot(o));
      assert Foot(o) - Foot(o) == multiset{};
      assert View().slots == old(View()).slots[x := Dyn(kind, Abs(o.val))];
    }

    /** `DynObject::insert`. The reference it returns is to the value in place. */
    method Insert(x: nat, kind: Kind, y: nat) returns (p: Pointer)
      requires Inv(multiset{}) && Compiles(env, shapes, Op.Insert(x, kind, y))
      modifies this, mem
      ensures Inv(multiset{}) && p == ValuePlace(x, []) && |old(held)| == |held|
      ensures forall z :: 0 <= z < |held| && z != x && z != y ==> held[z] == old(held)[z]
      ensures (View(), Done) == Next(env, old(View()), Op.Insert(x, kind, y))
    {
      hide *;
      ShapesHere(multiset{});
      InsertParts(env, View(), x, kind, y);
      var ty := shapes[y].ty;
      SlotHere(y, multiset{});
      var data, h := Take(y, multiset{});
      ValueHere(env, mem.cur.heap, data, ty, h);
      var cells, o := Construct(kind, ty, data, h.v);
      Replace(x, kind, cells, o);
      DynHere(x, multiset{});
      Object.StorageOf(env, mem.cur, At(Stack(x), 0), kind, o);
      p := Storage.AsMut(mem, env, kind, At(Stack(x), 0), ty, o);
      PlaceHere(x);
    }

    lemma PlaceHere(x: nat)
      requires x < |held| && held[x].HeldDyn? && held[x].o.val.ty in env.types
      ensures ValuePlace(x, []) == Storage.PlaceOf(env, At(Stack(x), 0), held[x].o)
    {}

    /** One statement of the client program. */
    method Step(op: Op) returns (out: Outcome)
      requires Inv(multiset{})
      modifies this, mem
      ensures Inv(multiset{}) && |old(held)| <= |held|
      ensures forall y :: 0 <= y < |old(held)| && !Touches(op, y) ==> Stays(old(held)[y], held[y])
      ensures (View(), out) == Next(env, old(View()), op)
    {
      forall y | 0 <= y < |held| { StaysRefl(held[y]); }
      hide Stays, Ok, UserEvents, UserLog, WfEnv, Memory.Valid, Inv, Compiles, Next, AbsSlots;
      ShapesHere(multiset{});
      NextRejects(env, View(), op);
      if !Compiles(env, shapes, op) {
        return Rejected;
      }
      out := Done;
      match op
      case Make(ty, data, parts) => Make(ty, data, parts);
      case New(kind, x) => New(kind, x);
      case BoxNew(x) => BoxNew(x);
      case FromBox(kind, x) => FromBox(kind, x);
      case Move(x) => Move(x);
      case Use(x, path, act) => out := Use(x, path, act);
      case Downcast(x, ty) => out := Downcast(x, ty);
      case Insert(x, kind, y) => var p := Insert(x, kind, y);
      case Drop(x) => Drop(x);
    }

    /** A whole client program: whatever the storages, the outcomes are those of the trees, and
        the destructors run are the user's destructors of the trees' log. */
    method Execute(ops: seq<Op>) returns (outs: seq<Outcome>)
      requires Inv(multiset{})
      modifies this, mem
      ensures Inv(multiset{})
      ensures (View(), outs) == Run(env, old(View()), ops)
      ensures UserEvents(mem.trace) == UserLog(env, Run(env, old(View()), ops).0.log)
      ensures forall y, fields :: 0 <= y < |old(held)| && Untouched(ops, y) ==>
        ValuePlace(y, fields) == old(ValuePlace(y, fields))
    {
      hide SlotOk, Accounts, UserEvents, UserLog, WfEnv, Memory.Valid, Next, AbsSlots, Touches, Stays;
      outs := [];
      forall y | 0 <= y < |held| { StaysRefl(held[y]); }
      var i := 0;
      while i < |ops|
        invariant 0 <= i <= |ops| && Inv(multiset{}) && |old(held)| <= |held|
        invariant forall y :: 0 <= y < |old(held)| && Untouched(ops, y) ==> Stays(old(held)[y], held[y])
        invariant (View(), outs) == Run(env, old(View()), ops[..i])
      {
        ghost var before := held;
        var out := Step(ops[i]);
        assert ops[..i + 1][..i] == ops[..i];
        forall y | 0 <= y < |old(held)| && Untouched(ops, y) ensures Stays(old(held)[y], held[y]) {
          StaysTrans(old(held)[y], before[y], held[y]);
        }
        outs := outs + [out];
        i := i + 1;
      }
      assert ops[..i] == ops;
      forall y, fields | 0 <= y < |old(held)| && Untouched(ops, y)
        ensures ValuePlace(y, fields) == old(ValuePlace(y, fields))
      {
        PlaceStays(env, At(Stack(y), 0), old(held)[y], held[y], fields);
      }
    }

    /** When no variable is left, the heap is the one the program started with. */
    lemma HeapRestored()
      requires Inv(multiset{}) && forall x :: 0 <= x < |shapes| ==> shapes[x].NoShape?
      ensures mem.cur.heap == start
    {
      hide Holds, WfEnv, UserEvents, UserLog, Memory.Valid;
      forall x | 0 <= x < |held| ensures held[x].Nothing? { assert SlotOk(env, mem.cur, x, shapes[x], held[x]); }
      NothingOwned(held);
      AccountsClosed(start, mem.cur.heap);
    }

    /** Driving one object in place, as polling a pinned future does: no value moves. */
    method Drive(x: nat, calls: seq<Action>) returns (outs: seq<Outcome>)
      requires Inv(multiset{}) && x < |shapes| && shapes[x].DynOf?
      modifies this, mem
      ensures Inv(multiset{}) && |outs| == |calls|
      ensures forall y, fields :: ValuePlace(y, fields) == old(ValuePlace(y, fields))
      ensures (View(), outs) ==
        Run(env, old(View()), seq(|calls|, i requires 0 <= i < |calls| => Op.Use(x, [], calls[i])))
    {
      hide SlotOk, Accounts, UserEvents, UserLog, WfEnv, Memory.Valid, Next, AbsSlots, ValuePlace;
      ghost var ops := seq(|calls|, i requires 0 <= i < |calls| => Op.Use(x, [], calls[i]));
      outs := [];
      var i := 0;
      while i < |calls|
        invariant 0 <= i <= |calls| && |outs| == i && Inv(multiset{}) && shapes == old(shapes)
        invariant forall y, fields :: ValuePlace(y, fields) == old(ValuePlace(y, fields))
        invariant (View(), outs) == Run(env, old(View()), ops[..i])
      {
        var out := Use(x, [], calls[i]);
        SamePrefix(ops, i + 1);
        assert ops[..i + 1][i] == Op.Use(x, [], calls[i]);
        outs := outs + [out];
        i := i + 1;
      }
      assert ops[..i] == ops;
    }

    lemma NothingLogged(l: seq<Dropped>)
      ensures l + SlotLog(Empty) == l
    {}

    /** What is loose is away from what is dropped. */
    lemma FrameAway(heap: HeapMap, gone: multiset<nat>, kept: multiset<nat>)
      requires Unique(gone + kept)
      ensures SameOn(kept, heap, Without(heap, gone))
    {
      forall h | h in kept ensures h !in gone {
        assert (gone + kept)[h] <= 1;
      }
    }

    lemma SlotHere(x: nat, loose: multiset<nat>)
      requires Inv(loose) && x < |shapes|
      ensures |shapes| == |held| && View().slots[x] == AbsSlot(shapes[x], held[x])
      ensures shapes[x].NoShape? ==> View().slots[x] == Empty
    {
      assert SlotOk(env, mem.cur, x, shapes[x], held[x]);
    }

    lemma DynHere(x: nat, loose: multiset<nat>)
      requires Inv(loose) && x < |shapes| && shapes[x].DynOf?
      ensures x < |held| && held[x].HeldDyn? && x in mem.cur.stack
      ensures Object.ObjectAt(env, mem.cur, At(Stack(x), 0), shapes[x].kind, held[x].o)
      ensures |mem.cur.stack[x]| == DynSize(shapes[x].kind)
    {
      hide HoldsObject, WfEnv, Memory.Valid, AllBlocks, Foot, FootKids;
      assert SlotOk(env, mem.cur, x, shapes[x], held[x]);
      BlocksIn(held, x);
      Owned(start, mem.cur.heap, AllBlocks(held), loose);
      UniqueSub(Blocks(held[x]), AllBlocks(held));
      SlotObject(env, mem.cur, x, shapes[x].kind, held[x].o);
    }

    lemma ShapesHere(loose: multiset<nat>)
      requires Inv(loose)
      ensures WfEnv(env) && |shapes| == |held| && ShapesOf(View().slots) == shapes
    {
      ShapesAgree(env, start, mem.cur, shapes, held, loose);
    }
  }

  /** Two machines running programs that differ only in storages cannot be told apart. */
  method Indistinguishable(r: Runner, r': Runner, ops: seq<Op>, ops': seq<Op>)
    returns (outs: seq<Outcome>, outs': seq<Outcome>)
    requires r != r' && r.mem != r'.mem && r.Inv(multiset{}) && r'.Inv(multiset{})
    requires Invisible.SameTypes(r.env, r'.env) && Invisible.SameWorld(r.View(), r'.View())
    requires Invisible.SameOps(ops, ops')
    requires Invisible.AllCompile(r.env, r.View(), ops) && Invisible.AllCompile(r'.env, r'.View(), ops')
    modifies r, r.mem, r', r'.mem
    ensures r.Inv(multiset{}) && r'.Inv(multiset{})
    ensures outs == outs' && Invisible.SameWorld(r.View(), r'.View())
    ensures UserEvents(r.mem.trace) == UserEvents(r'.mem.trace)
  {
    hide SlotOk, Accounts, Run, Invisible.SameTypes, Invisible.SameWorld, Invisible.AllCompile, UserEvents, UserLog,
         WfEnv;
    Invisible.RunAlike(r.env, r'.env, r.View(), r'.View(), ops, ops');
    outs := r.Execute(ops);
    outs' := r'.Execute(ops');
    SameLogs(r.env, r'.env, r.View(), r'.View());
  }

  lemma {:induction false} UserLogAlike(env: Env, env': Env, log: seq<Dropped>)
    requires Invisible.SameTypes(env, env')
    ensures UserLog(env, log) == UserLog(env', log)
    decreases |log|
  {
    if log != [] {
      UserLogAlike(env, env', log[..|log| - 1]);
      var ty := log[|log| - 1].ty;
      if ty in env.types { assert Invisible.SameType(env.types[ty], env'.types[ty]); }
    }
  }

  lemma SameLogs(env: Env, env': Env, w: World, w': World)
    requires Invisible.SameTypes(env, env') && Invisible.SameWorld(w, w')
    ensures UserLog(env, w.log) == UserLog(env', w'.log)
  {
    UserLogAlike(env, env', w.log);
  }
}
