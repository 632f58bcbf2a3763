/** Implementations that the translation is proved for: async methods compiled to state machines,
    beside any plain methods and any types of iterators and futures written by hand. */
module AsyncTypes {
  import opened Wrappers
  import opened Data
  import opened DynTraitRuns
  import opened MaybeSync
  import SyncShortcut
  import Layout
  import Memory
  import Values

  // ----- the state machine of an await-free body -----

  /** Arguments that fit `n` bytes. */
  predicate ByteArgs(n: nat, args: seq<Datum>) {
    |args| == n && forall i :: 0 <= i < n ==> args[i].Atom? && 0 <= args[i].id < 256
  }

  function Encoded(n: nat, args: seq<Datum>): (r: seq<Memory.byte>)
    requires ByteArgs(n, args)
    ensures |r| == n
  {
    seq(n, i requires 0 <= i < n => args[i].id)
  }

  function Decoded(data: seq<Memory.byte>): (r: seq<Datum>)
    ensures |r| == |data|
  {
    seq(|data|, i requires 0 <= i < |data| => Atom(data[i]))
  }

  lemma ArgsRoundTrip(n: nat, args: seq<Datum>)
    requires ByteArgs(n, args)
    ensures Decoded(Encoded(n, args)) == args
  {}

  /** A future that has not been polled: a mark, then its arguments. */
  function Fresh(n: nat, args: seq<Datum>): (r: seq<Memory.byte>)
    requires ByteArgs(n, args)
    ensures |r| == n + 1
  {
    [1] + Encoded(n, args)
  }

  /** `poll`, the state being its argument. */
  function PollStepOf(b: AsyncBody): (seq<Memory.byte>, seq<Datum>) -> (seq<Memory.byte>, Datum) {
    (data, args) =>
      if |data| == 0 || |args| != 1 then (data, Atom(0))
      else if data[0] == 1 && SyncShortcut.AwaitFree(b) then
        var (s, v) := SyncShortcut.RunSync(b, args[0], Decoded(data[1..]));
        (data[0 := 0], Tup([PollDatum(Ready(v)), s]))
      else (data, Tup([PollDatum(Panicked), args[0]]))
  }

  function FutureType(b: AsyncBody, n: nat, arity: nat): Values.TypeDesc
    requires arity > 0
  {
    Values.TypeDesc(Layout.Layout(n + 1, 1), n + 1, [], false, false,
                    [Values.Method(Memory.ByPin, PollStepOf(b))]
                    + seq(arity - 1, _ => Values.Method(Memory.ByRef, (data, _) => (data, Atom(0)))))
  }

  lemma FutureTypeFits(env: Values.Env, b: AsyncBody, n: nat)
    requires env.arity > 0
    ensures Values.WfType(env, FutureType(b, n, env.arity))
  {
    var d := FutureType(b, n, env.arity);
    assert Layout.Aligned(n + 1, 1);
    forall i | 0 <= i < |d.methods| ensures Values.WfMethod(d, d.methods[i]) {
      forall s: seq<Memory.byte>, args: seq<Datum> | |s| == d.plain ensures |d.methods[i].step(s, args).0| == d.plain {}
    }
  }

  // ----- the implementation -----

  type AsyncFn = SyncShortcut.ImplFn<Datum, seq<Datum>, Datum>

  predicate IsId(first: nat, count: nat, k: nat) { first <= k < first + count }

  /** The environment `base` with a type for the future of each declared method, from id `first` on;
      `width` has the number of bytes of each method's arguments. */
  function WithFutures(base: Values.Env, decls: Decls, width: string -> nat, first: nat): Values.Env
    requires base.arity > 0
  {
    var ids := set k: nat | first <= k < first + |decls| && IsId(first, |decls|, k);
    base.(types := map t | t in base.types.Keys + ids ::
                     if IsId(first, |decls|, t) then FutureOf(decls[t - first].fn, width, base.arity)
                       else base.types[t])
  }

  function FutureOf(fn: AsyncFn, width: string -> nat, arity: nat): Values.TypeDesc
    requires arity > 0
  {
    FutureType(fn.body, width(fn.name), arity)
  }

  function IndexOf(decls: Decls, name: string): (r: Option<nat>)
    ensures r.Some? ==> r.value < |decls| && decls[r.value].fn.name == name
    ensures r.None? ==> forall k :: 0 <= k < |decls| ==> decls[k].fn.name != name
  {
    if decls == [] then None
    else if decls[0].fn.name == name then Some(0)
    else match IndexOf(decls[1..], name)
      case None =>
        assert forall k :: 0 < k < |decls| ==> decls[k] == decls[1..][k - 1];
        None
      case Some(k) => Some(k + 1)
  }

  /** `plain` and `other` are the methods that are not async: any plain ones, and any that return
      values of the types of `base`. */
  function AsyncImpl(base: Values.Env, decls: Decls, width: string -> nat, first: nat,
                     plain: (string, seq<Datum>, Datum) -> (Datum, Datum),
                     other: (string, seq<Datum>, Datum) -> (Hidden, Datum)): Impl
    requires base.arity > 0
  {
    Impl(WithFutures(base, decls, width, first), plain,
         (name, args, s) => HiddenOf(decls, width, first, other, name, args, s), SyncShortcut.ItemsOf(decls))
  }

  function HiddenOf(decls: Decls, width: string -> nat, first: nat,
                    other: (string, seq<Datum>, Datum) -> (Hidden, Datum),
                    name: string, args: seq<Datum>, s: Datum): (Hidden, Datum)
  {
    match IndexOf(decls, name)
    case Some(k) => (Hidden(first + k, StartBytes(width(name), args), []), s)
    case None => other(name, args, s)
  }

  function StartBytes(n: nat, args: seq<Datum>): seq<Memory.byte> {
    if ByteArgs(n, args) then Fresh(n, args) else []
  }

  /** Each async method is called with the bytes of its own parameters, the others with anything. */
  function ArgsFit(decls: Decls, width: string -> nat): ArgTypes {
    (name, args) => IndexOf(decls, name).Some? ==> ByteArgs(width(name), args)
  }

  /** Which values are compiled futures of the declared methods. */
  ghost function RepOf(decls: Decls, width: string -> nat, first: nat): Rep {
    (f, o) => IsFuture(decls, width, first, f, o)
  }

  ghost predicate IsFuture(decls: Decls, width: string -> nat, first: nat, f: Fut, o: Hidden) {
    first <= o.ty < first + |decls| && IsFutureOf(decls[o.ty - first].fn.body, width(decls[o.ty - first].fn.name), f, o)
  }

  /** The bytes of a future, before and after its only poll. */
  ghost predicate IsFutureOf(b: AsyncBody, n: nat, f: Fut, o: Hidden) {
    |o.data| == n + 1 && o.parts == []
    && ((f == SyncShortcut.Finished && o.data[0] == 0) || exists args :: StartsWith(b, n, args, f, o))
  }

  ghost predicate StartsWith(b: AsyncBody, n: nat, args: seq<Datum>, f: Fut, o: Hidden) {
    ByteArgs(n, args) && f == SyncShortcut.Todo(b, args) && o.data == Fresh(n, args)
  }

  lemma FuturePolls(base: Values.Env, decls: Decls, width: string -> nat, first: nat, f: Fut, o: Hidden, s: Datum)
    requires base.arity > 0 && (forall k :: 0 <= k < |decls| ==> SyncShortcut.AwaitFree(decls[k].fn.body))
    requires IsFuture(decls, width, first, f, o)
    ensures PollsAs(WithFutures(base, decls, width, first), RepOf(decls, width, first), f, o, s)
    ensures EndsOf(WithFutures(base, decls, width, first), o) == []
  {
    hide SyncShortcut.RunSync, SyncShortcut.AwaitFree;
    var b, n := decls[o.ty - first].fn.body, width(decls[o.ty - first].fn.name);
    assert WithFutures(base, decls, width, first).types[o.ty] == FutureType(b, n, base.arity);
    assert [] + [s] == [s];
    if f.Todo? {
      var args :| StartsWith(b, n, args, f, o);
      ArgsRoundTrip(n, args);
      assert o.data[1..] == Encoded(n, args);
      SyncShortcut.FirstPoll(b, s, args);
      assert IsFuture(decls, width, first, SyncShortcut.Finished, o.(data := o.data[0 := 0]));
    }
  }

  /** Calling a declared method makes its future, unpolled. */
  lemma FutureStarts(base: Values.Env, decls: Decls, width: string -> nat, first: nat,
                     plain: (string, seq<Datum>, Datum) -> (Datum, Datum),
                     other: (string, seq<Datum>, Datum) -> (Hidden, Datum), k: nat, args: seq<Datum>, s: Datum)
    requires base.arity > 0 && SyncShortcut.NoClash(decls) && k < |decls| && ByteArgs(width(decls[k].fn.name), args)
    ensures Starts(AsyncImpl(base, decls, width, first, plain, other), RepOf(decls, width, first), decls[k].fn, args, s)
  {
    hide WithFutures;
    var b, n := decls[k].fn.body, width(decls[k].fn.name);
    assert IndexOf(decls, decls[k].fn.name) == Some(k);
    var o := Hidden(first + k, Fresh(n, args), []);
    assert HiddenOf(decls, width, first, other, decls[k].fn.name, args, s) == (o, s);
    assert StartsWith(b, n, args, SyncShortcut.Todo(b, args), o);
    assert IsFuture(decls, width, first, SyncShortcut.Todo(b, args), o);
  }

  /** Every choice of plain methods, other returned types and await-free async methods, decorated with
      `sync` or not, is an implementation that the translation preserves. An async method that awaits is
      one of the others: its future is a type of `base`. */
  lemma AsyncImplLawful(base: Values.Env, decls: Decls, width: string -> nat, first: nat,
                        plain: (string, seq<Datum>, Datum) -> (Datum, Datum),
                        other: (string, seq<Datum>, Datum) -> (Hidden, Datum))
    requires Values.WfEnv(base) && base.arity > 0
    requires SyncShortcut.NoClash(decls) && SyncShortcut.Decorable(decls)
    requires forall k :: 0 <= k < |decls| ==> SyncShortcut.AwaitFree(decls[k].fn.body)
    ensures AsyncMethods(AsyncImpl(base, decls, width, first, plain, other), RepOf(decls, width, first),
                         ArgsFit(decls, width), decls)
    ensures Values.WfEnv(WithFutures(base, decls, width, first))
  {
    hide WithFutures, IsFuture, PollsAs, EndsOf, Starts, IndexOf, Values.WfEnv, SyncShortcut.NoClash;
    var rep, impl := RepOf(decls, width, first), AsyncImpl(base, decls, width, first, plain, other);
    forall f: Fut, o: Hidden, s: Datum | rep(f, o) { FuturePolls(base, decls, width, first, f, o, s); }
    forall f: Fut, o: Hidden | rep(f, o) ensures EndsOf(impl.env, o) == [] {
      FuturePolls(base, decls, width, first, f, o, Atom(0));
    }
    forall k, args, s | 0 <= k < |decls| && ArgsFit(decls, width)(decls[k].fn.name, args)
      ensures Starts(impl, rep, decls[k].fn, args, s)
    {
      FutureStarts(base, decls, width, first, plain, other, k, args, s);
    }
    FuturesFit(base, decls, width, first);
  }

  lemma FuturesFit(base: Values.Env, decls: Decls, width: string -> nat, first: nat)
    requires Values.WfEnv(base) && base.arity > 0
    ensures Values.WfEnv(WithFutures(base, decls, width, first))
  {
    hide Values.WfType, FutureType;
    var env := WithFutures(base, decls, width, first);
    forall ty | ty in env.types ensures Values.WfType(env, env.types[ty]) {
      if first <= ty < first + |decls| {
        FutureTypeFits(env, decls[ty - first].fn.body, width(decls[ty - first].fn.name));
      } else {
        SameWf(base, env, base.types[ty]);
      }
    }
  }

  lemma SameWf(base: Values.Env, env: Values.Env, d: Values.TypeDesc)
    requires Values.WfType(base, d) && env.arity == base.arity && env.alloc == base.alloc
    ensures Values.WfType(env, d)
  {
    hide Values.WfMethod, Values.WfField;
  }
}
