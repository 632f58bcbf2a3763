/** Sizes and alignments: `can_store`, and where a `Raw`, a `Box`, a `RawOrBox` and
    the vtable reference sit inside a `DynObject`. */
module Layout {

  datatype Layout = Layout(size: nat, align: nat)

  /** The storage a `DynObject` is instantiated with; SIZE and ALIGN are its const parameters. */
  datatype Kind = Raw(size: nat, align: nat) | Box | RawOrBox(size: nat, align: nat)

  // size_of::<usize>(), the size and alignment of a pointer
  const WORD: nat := 8

  predicate IsPow2(n: nat) {
    n == 1 || (n > 1 && n % 2 == 0 && IsPow2(n / 2))
  }

  function Max(a: nat, b: nat): nat { if a < b then b else a }

  predicate Aligned(n: nat, a: nat) { a > 0 && n % a == 0 }

  /** The least multiple of `a` that is at least `n`. */
  function RoundUp(n: nat, a: nat): (r: nat)
    requires a > 0
    ensures n <= r < n + a
  {
    if Aligned(n, a) then n else n + a - n % a
  }

  predicate CanStore(size: nat, align: nat, t: Layout) {
    t.size <= size && t.align <= align
  }

  ghost predicate ValidLayout(t: Layout) {
    IsPow2(t.align) && Aligned(t.size, t.align)
  }

  predicate ValidKind(k: Kind) {
    k.Box? || IsPow2(k.align)
  }

  function StorageAlign(k: Kind): nat {
    match k
    case Raw(_, a) => a
    case Box => WORD
    case RawOrBox(_, a) => Max(a, WORD)
  }

  /** `repr(C)` rounds the buffer of a `Raw` up to its alignment. */
  function RawSize(size: nat, align: nat): (n: nat)
    requires align > 0
    ensures size <= n
  {
    RoundUp(size, align)
  }

  /** Offset of the discriminant of a `RawOrBox`: both variants start at offset 0. */
  function TagOff(size: nat, align: nat): (n: nat)
    requires align > 0
    ensures size <= n && WORD <= n
  {
    Max(RawSize(size, align), WORD)
  }

  function StorageSize(k: Kind): (n: nat)
    requires ValidKind(k)
    ensures k.Box? || k.size <= n
  {
    match k
    case Raw(s, a) => RawSize(s, a)
    case Box => WORD
    case RawOrBox(s, a) => RoundUp(TagOff(s, a) + 1, Max(a, WORD))
  }

  /** Offset of the `vtable` field, after the `storage` field. */
  function VtableOff(k: Kind): (n: nat)
    requires ValidKind(k)
    ensures StorageSize(k) <= n
  {
    RoundUp(StorageSize(k), WORD)
  }

  function DynAlign(k: Kind): nat { Max(StorageAlign(k), WORD) }

  function DynSize(k: Kind): (n: nat)
    requires ValidKind(k)
    ensures VtableOff(k) + WORD <= n
  {
    RoundUp(VtableOff(k) + WORD, DynAlign(k))
  }

}
