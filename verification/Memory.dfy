/** The abstract machine's memory: stack slots and heap blocks made of cells, pointers that
    survive being copied cell by cell, and the trace of what the allocator and the
    destructors did. */
module Memory {
  import opened Wrappers
  import opened Layout

  type TypeId = nat
  type byte = x: int | 0 <= x < 256

  /** How a trait method takes `self`: `&self`, `&mut self` or `Pin<&mut Self>`. */
  datatype Receiver = ByRef | ByMut | ByPin

  /** A vtable entry: a function built for one concrete type and one storage. */
  datatype Entry = Entry(ty: TypeId, kind: Kind, receiver: Receiver, index: nat)

  /** The `'static` vtable; `dropFn` names the type whose destructor it runs. */
  datatype Vtable = Vtable(dropFn: Option<TypeId>, layout: Layout, typeId: TypeId, entries: seq<Entry>)

  datatype Base = Stack(i: nat) | Heap(h: nat)

  /** `Dangling` is the pointer of a `Box` of a zero-sized value. */
  datatype Pointer = At(base: Base, off: nat) | Dangling(align: nat) | Static(vt: Vtable)

  /** A cell is uninitialised, a plain byte, or the k-th fragment of a pointer. */
  datatype Cell = Uninit | Byte(v: byte) | Frag(p: Pointer, k: nat)

  datatype HeapBlock = HeapBlock(layout: Layout, cells: seq<Cell>)

  /** What is observed: a user `Drop::drop` running on a value, an allocation, a release. */
  datatype Event =
    | UserDrop(tok: nat, ty: TypeId, data: seq<byte>)
    | Alloc(h: nat, layout: Layout)
    | Free(h: nat, layout: Layout)

  type HeapMap = map<nat, HeapBlock>

  function PointerCells(p: Pointer): seq<Cell> { seq(WORD, (k: nat) => Frag(p, k)) }

  function ReadPointer(cells: seq<Cell>): (r: Option<Pointer>)
    ensures r.Some? ==> cells == PointerCells(r.value)
  {
    if |cells| == WORD && cells[0].Frag? && cells == PointerCells(cells[0].p) then Some(cells[0].p) else None
  }

  lemma PointerRoundTrip(p: Pointer)
    ensures ReadPointer(PointerCells(p)) == Some(p)
  {
    assert PointerCells(p)[0] == Frag(p, 0);
  }

  function PointerAdd(p: Pointer, n: nat): Pointer {
    match p
    case At(b, off) => At(b, off + n)
    case _ => p
  }

  /** `cells` with `new` written at `off`. */
  function Patch(cells: seq<Cell>, off: nat, new_: seq<Cell>): (r: seq<Cell>)
    requires off + |new_| <= |cells|
    ensures |r| == |cells| && r[off..off + |new_|] == new_
    ensures forall k :: 0 <= k < |cells| && !(off <= k < off + |new_|) ==> r[k] == cells[k]
  {
    cells[..off] + new_ + cells[off + |new_|..]
  }

  function Without(heap: HeapMap, gone: multiset<nat>): HeapMap {
    map h | h in heap && h !in gone :: heap[h]
  }

  /** The table of live allocations after replaying the allocator's events; `None` if some
      block is allocated while live, or released while dead or with another layout. */
  function Replay(live: map<nat, Layout>, t: seq<Event>): Option<map<nat, Layout>> {
    if t == [] then Some(live) else
    match Replay(live, t[..|t| - 1])
    case None => None
    case Some(m) =>
      match t[|t| - 1]
      case UserDrop(_, _, _) => Some(m)
      case Alloc(h, l) => if h in m then None else Some(m[h := l])
      case Free(h, l) => if h in m && m[h] == l then Some(m - {h}) else None
  }

  lemma ReplayOne(live: map<nat, Layout>, t: seq<Event>, e: Event)
    ensures Replay(live, t + [e]) ==
            match Replay(live, t)
            case None => None
            case Some(m) =>
              match e
              case UserDrop(_, _, _) => Some(m)
              case Alloc(h, l) => if h in m then None else Some(m[h := l])
              case Free(h, l) => if h in m && m[h] == l then Some(m - {h}) else None
  {
    assert (t + [e])[..|t|] == t;
  }

  function Layouts(heap: HeapMap): map<nat, Layout> { map h | h in heap :: heap[h].layout }

  lemma FreshBlock(heap: HeapMap) returns (h: nat)
    ensures h !in heap
  {
    h := FreshIn(heap.Keys);
  }

  lemma {:induction false} FreshIn(s: set<nat>) returns (h: nat)
    ensures forall x :: x in s ==> x < h
    decreases s
  {
    if s == {} {
      h := 0;
    } else {
      var x :| x in s;
      var h' := FreshIn(s - {x});
      h := Max(h', x + 1);
      assert forall y :: y in s ==> y == x || y in s - {x};
    }
  }

  /** The contents of memory. */
  datatype State = State(stack: map<nat, seq<Cell>>, heap: HeapMap)

  predicate Readable(s: State, p: Pointer, n: nat) {
    n == 0 ||
    match p
    case At(Stack(i), off) => i in s.stack && off + n <= |s.stack[i]|
    case At(Heap(h), off) => h in s.heap && off + n <= |s.heap[h].cells|
    case _ => false
  }

  function Load(s: State, p: Pointer, n: nat): (r: seq<Cell>)
    requires Readable(s, p, n)
    ensures |r| == n
  {
    if n == 0 then [] else
    match p
    case At(Stack(i), off) => s.stack[i][off..off + n]
    case At(Heap(h), off) => s.heap[h].cells[off..off + n]
  }

  /** A part of what is loaded is loaded from inside. */
  lemma LoadPart(s: State, p: Pointer, n: nat, off: nat, k: nat)
    requires 0 < k && off + k <= n && Readable(s, p, n)
    ensures Readable(s, PointerAdd(p, off), k) && Load(s, PointerAdd(p, off), k) == Load(s, p, n)[off..off + k]
  {
    match p.base
    case Stack(i) => SliceOfSlice(s.stack[i], p.off, n, off, k);
    case Heap(h) => SliceOfSlice(s.heap[h].cells, p.off, n, off, k);
  }

  lemma SliceOfSlice(c: seq<Cell>, start: nat, n: nat, off: nat, k: nat)
    requires off + k <= n && start + n <= |c|
    ensures c[start..start + n][off..off + k] == c[start + off..start + off + k]
  {
    var whole, part := c[start..start + n], c[start + off..start + off + k];
    forall i | 0 <= i < k ensures whole[off + i] == part[i] {
      assert whole[off + i] == c[start + (off + i)];
    }
    assert whole[off..off + k] == part;
  }

  lemma LoadStart(s: State, p: Pointer, n: nat, k: nat)
    requires k <= n && Readable(s, p, n)
    ensures Readable(s, p, k) && Load(s, p, n)[..k] == Load(s, p, k)
  {
    if 0 < k { LoadPart(s, p, n, 0, k); }
  }

  function Store(s: State, p: Pointer, cells: seq<Cell>): State
    requires Readable(s, p, |cells|)
  {
    if cells == [] then s else
    match p
    case At(Stack(i), off) => s.(stack := s.stack[i := Patch(s.stack[i], off, cells)])
    case At(Heap(h), off) => s.(heap := s.heap[h := s.heap[h].(cells := Patch(s.heap[h].cells, off, cells))])
  }

  class Memory {
    var cur: State
    ghost var trace: seq<Event>
    ghost const start: map<nat, Layout>

    /** Every release so far matched one earlier allocation, with its layout. */
    ghost predicate Valid()
      reads this
    {
      Replay(start, trace) == Some(Layouts(cur.heap))
    }

    constructor (s: State)
      ensures Valid() && cur == s && trace == []
    {
      cur, trace, start := s, [], Layouts(s.heap);
    }

    method Write(p: Pointer, cells: seq<Cell>)
      requires Readable(cur, p, |cells|) && Valid()
      modifies this
      ensures Valid() && trace == old(trace) && cur == Store(old(cur), p, cells)
    {
      cur := Store(cur, p, cells);
      assert Layouts(cur.heap) == Layouts(old(cur).heap);
    }

    /** A fresh block holding `cells`; which free address the allocator picks is left open. */
    method Allocate(layout: Layout, cells: seq<Cell>) returns (h: nat)
      requires Valid()
      modifies this
      ensures Valid() && h !in old(cur).heap
      ensures cur == old(cur).(heap := old(cur).heap[h := HeapBlock(layout, cells)])
      ensures trace == old(trace) + [Alloc(h, layout)]
    {
      ghost var w := FreshBlock(cur.heap);
      h :| h !in cur.heap;
      ReplayOne(start, trace, Alloc(h, layout));
      cur, trace := cur.(heap := cur.heap[h := HeapBlock(layout, cells)]), trace + [Alloc(h, layout)];
      assert Layouts(cur.heap) == Layouts(old(cur).heap)[h := layout];
    }

    /** Releasing a block twice, or with another layout, is undefined behaviour: the `requires`
        rules both out. */
    method Deallocate(p: Pointer, layout: Layout)
      requires Valid()
      requires p.At? && p.off == 0 && p.base.Heap?
      requires p.base.h in cur.heap && cur.heap[p.base.h].layout == layout
      modifies this
      ensures Valid() && cur == old(cur).(heap := Without(old(cur).heap, multiset{p.base.h}))
      ensures trace == old(trace) + [Free(p.base.h, layout)]
    {
      ReplayOne(start, trace, Free(p.base.h, layout));
      cur, trace := cur.(heap := Without(cur.heap, multiset{p.base.h})), trace + [Free(p.base.h, layout)];
      assert Layouts(cur.heap) == Layouts(old(cur).heap) - {p.base.h};
    }

    /** A stack slot comes into use, or is left. */
    method SetSlot(i: nat, cells: seq<Cell>)
      requires Valid()
      modifies this
      ensures Valid() && trace == old(trace) && cur == old(cur).(stack := old(cur).stack[i := cells])
    {
      cur := cur.(stack := cur.stack[i := cells]);
    }

    /** Records that a user destructor ran. */
    ghost method Dropped(tok: nat, ty: TypeId, data: seq<byte>)
      requires Valid()
      modifies this`trace
      ensures Valid() && trace == old(trace) + [UserDrop(tok, ty, data)]
    {
      ReplayOne(start, trace, UserDrop(tok, ty, data));
      trace := trace + [UserDrop(tok, ty, data)];
    }
  }
}
