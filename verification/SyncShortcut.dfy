/** The `sync` macro and the synchronous shortcut of a `maybe_sync` method. */
module SyncShortcut {
  import opened Wrappers
  import opened MaybeSync

  /** The body of an async method over the state `S` it can reach and its locals `L`. Any
      await-free piece of code, loops included, is a `Run`. */
  datatype Body<!S, !L, V> =
    | Return(value: (S, L) -> V)
    | Run(code: (S, L) -> (S, L), rest: Body<S, L, V>)
    | Branch(cond: (S, L) -> bool, yes: Body<S, L, V>, no: Body<S, L, V>)
    // polls a future held in the locals; suspends until it is ready
    | Await(pollSub: (S, L) -> (S, L, bool), rest: Body<S, L, V>)

  predicate AwaitFree<S, L, V>(b: Body<S, L, V>) {
    match b
    case Return(_) => true
    case Run(_, rest) => AwaitFree(rest)
    case Branch(_, yes, no) => AwaitFree(yes) && AwaitFree(no)
    case Await(_, _) => false
  }

  /** The future of an async method: the code still to run and its locals, or nothing left. */
  datatype Fut<!S, !L, V> = Todo(body: Body<S, L, V>, locals: L) | Finished

  /** Runs until the end or until an awaited future is pending. */
  function Resume<S, L, V>(b: Body<S, L, V>, s: S, l: L): (Fut<S, L, V>, S, Poll<V>) {
    match b
    case Return(value) => (Finished, s, Ready(value(s, l)))
    case Run(code, rest) => var (s', l') := code(s, l); Resume(rest, s', l')
    case Branch(cond, yes, no) => if cond(s, l) then Resume(yes, s, l) else Resume(no, s, l)
    case Await(pollSub, rest) =>
      var (s', l', ready) := pollSub(s, l);
      if ready then Resume(rest, s', l') else (Todo(b, l'), s', Pending)
  }

  function PollFut<S, L, V>(f: Fut<S, L, V>, s: S): (Fut<S, L, V>, S, Poll<V>) {
    match f
    case Todo(body, locals) => Resume(body, s, locals)
    case Finished => (Finished, s, Panicked)
  }

  /** The same body as a synchronous function. */
  function RunSync<S, L, V>(b: Body<S, L, V>, s: S, l: L): (S, V)
    requires AwaitFree(b)
  {
    match b
    case Return(value) => (s, value(s, l))
    case Run(code, rest) => var (s', l') := code(s, l); RunSync(rest, s', l')
    case Branch(cond, yes, no) => if cond(s, l) then RunSync(yes, s, l) else RunSync(no, s, l)
  }

  /** An await-free body is done on the first poll, with the result and the effects of the
      synchronous function. */
  lemma {:induction false} FirstPoll<S, L, V>(b: Body<S, L, V>, s: S, l: L)
    requires AwaitFree(b)
    ensures PollFut(Todo(b, l), s) == (Finished, RunSync(b, s, l).0, Ready(RunSync(b, s, l).1))
    decreases b
  {
    match b
    case Return(_) =>
    case Run(code, rest) => FirstPoll(rest, code(s, l).0, code(s, l).1);
    case Branch(cond, yes, no) => if cond(s, l) { FirstPoll(yes, s, l); } else { FirstPoll(no, s, l); }
  }

  // ----- what the macros generate -----

  /** A method of an `impl` block. */
  datatype ImplFn<!S, !L, V> = ImplFn(name: string, isAsync: bool, body: Body<S, L, V>)

  datatype ImplItem<!S, !L, V> = Fn(fn: ImplFn<S, L, V>) | Const(name: string, value: bool)

  // `to_uppercase` is left open: the constant's name is paired with the method's
  function SyncFn(name: string): string { name + "_sync" }
  function IsSyncConst(name: string): string { name + "_IS_SYNC" }

  /** `#[sync]` on a method of an `impl` block; `None` is its compile error. */
  method SyncImpl<S, L, V>(fn: ImplFn<S, L, V>) returns (items: Option<seq<ImplItem<S, L, V>>>)
    ensures items.Some? <==> fn.isAsync
    ensures items.Some? ==> items.value == SyncItems(fn)
  {
    if !fn.isAsync {
      return None;
    }
    var sync := fn;
    sync := sync.(isAsync := false);
    sync := sync.(name := SyncFn(fn.name));
    items := Some([Fn(fn), Fn(sync), Const(IsSyncConst(fn.name), true)]);
  }

  function SyncItems<S, L, V>(fn: ImplFn<S, L, V>): seq<ImplItem<S, L, V>> {
    [Fn(fn), Fn(ImplFn(SyncFn(fn.name), false, fn.body)), Const(IsSyncConst(fn.name), true)]
  }

  /** A constant: the `impl`'s, or the default `false` of the generated trait. */
  function ConstValue<S, L, V>(items: seq<ImplItem<S, L, V>>, name: string): bool {
    if items == [] then false
    else if items[0].Const? && items[0].name == name then items[0].value
    else ConstValue(items[1..], name)
  }

  function IsSync<S, L, V>(items: seq<ImplItem<S, L, V>>, name: string): bool { ConstValue(items, IsSyncConst(name)) }

  function Lookup<S, L, V>(items: seq<ImplItem<S, L, V>>, name: string): Option<ImplFn<S, L, V>> {
    if items == [] then None
    else if items[0].Fn? && items[0].fn.name == name then Some(items[0].fn)
    else Lookup(items[1..], name)
  }

  /** Calling the generated `maybe_sync` method: the shortcut runs the body now, the other branch
      only captures the arguments. `None` when the `impl` has no such methods. */
  function CallMaybeSync<S, L, V>(items: seq<ImplItem<S, L, V>>, name: string, s: S, args: L)
    : Option<(S, MaybeSync<Fut<S, L, V>, V>)>
  {
    if IsSync(items, name) then
      match Lookup(items, SyncFn(name))
      case Some(fn) => if AwaitFree(fn.body) then
          var (s', v) := RunSync(fn.body, s, args);
          Some((s', Sync(v)))
        else None
      case None => None
    else
      match Lookup(items, name)
      case Some(fn) => Some((s, Async(Todo(fn.body, args))))
      case None => None
  }

  /** Calling it, and polling what it returned once; `g` is what happens to the state in between. */
  function CallThenPoll<S, L, V>(items: seq<ImplItem<S, L, V>>, name: string, s: S, args: L, g: S -> S)
    : Option<(S, Poll<V>)>
  {
    match CallMaybeSync(items, name, s, args)
    case None => None
    case Some((s', m)) => var (_, s'', p) := PollStep(m, g(s'), (f, t) => PollFut(f, t)); Some((s'', p))
  }

  function CallAndPoll<S, L, V>(items: seq<ImplItem<S, L, V>>, name: string, s: S, args: L): Option<(S, Poll<V>)> {
    CallThenPoll(items, name, s, args, t => t)
  }

  lemma Names(name: string)
    ensures SyncFn(name) != name
  {
    assert |SyncFn(name)| > |name|;
  }

  lemma FoundSync<S, L, V>(fn: ImplFn<S, L, V>)
    ensures IsSync(SyncItems(fn), fn.name) && !IsSync([Fn(fn)], fn.name)
    ensures Lookup(SyncItems(fn), SyncFn(fn.name)) == Some(ImplFn(SyncFn(fn.name), false, fn.body))
    ensures Lookup([Fn(fn)], fn.name) == Some(fn)
  {
    Names(fn.name);
    var items := SyncItems(fn);
    assert items[1..] == [items[1], items[2]] && items[1..][1..] == [items[2]];
    assert [Fn(fn)][1..] == [];
    assert !ConstValue([Fn(fn)][1..], IsSyncConst(fn.name));
  }

  /** Decorating an await-free method with `sync` is invisible to a caller that polls at once:
      the same ready value and the same state, and both are what the body computes. */
  lemma ShortcutAgrees<S, L, V>(fn: ImplFn<S, L, V>, s: S, args: L)
    requires AwaitFree(fn.body)
    ensures CallAndPoll(SyncItems(fn), fn.name, s, args) == CallAndPoll([Fn(fn)], fn.name, s, args)
    ensures CallAndPoll([Fn(fn)], fn.name, s, args) ==
            Some((RunSync(fn.body, s, args).0, Ready(RunSync(fn.body, s, args).1)))
  {
    FoundSync(fn);
    FirstPoll(fn.body, s, args);
  }

  /** Polling again panics either way. */
  lemma ShortcutPanics<S, L, V>(fn: ImplFn<S, L, V>, s: S, s': S, args: L)
    requires AwaitFree(fn.body)
    ensures forall items :: items == SyncItems(fn) || items == [Fn(fn)] ==>
      CallMaybeSync(items, fn.name, s, args).Some? &&
      var (s1, m) := CallMaybeSync(items, fn.name, s, args).value;
      var poll := (f, t) => PollFut(f, t);
      PollStep(PollStep(m, s1, poll).0, s', poll).2 == Panicked
  {
    FoundSync(fn);
    FirstPoll(fn.body, s, args);
  }

  // ----- whole impls -----

  /** An async method of an `impl`, decorated with `sync` or not. */
  datatype Decl<!S, !L, V> = Decl(fn: ImplFn<S, L, V>, decorated: bool)

  /** The items of the `impl` once `sync` has been expanded. */
  function ItemsOf<S, L, V>(decls: seq<Decl<S, L, V>>): seq<ImplItem<S, L, V>> {
    if decls == [] then []
    else (if decls[0].decorated then SyncItems(decls[0].fn) else [Fn(decls[0].fn)]) + ItemsOf(decls[1..])
  }

  /** The methods have different names, and no name is a generated one. */
  ghost predicate NoClash<S, L, V>(decls: seq<Decl<S, L, V>>) {
    (forall i, j :: 0 <= i < j < |decls| ==> decls[i].fn.name != decls[j].fn.name)
    && forall i, j :: 0 <= i < |decls| && 0 <= j < |decls| ==> decls[i].fn.name != SyncFn(decls[j].fn.name)
  }

  /** The decorated methods are async, and their bodies do not await: they compile as synchronous
      functions too. */
  predicate Decorable<S, L, V>(decls: seq<Decl<S, L, V>>) {
    forall i :: 0 <= i < |decls| ==> decls[i].fn.isAsync && (decls[i].decorated ==> AwaitFree(decls[i].fn.body))
  }

  lemma Injective(a: string, b: string)
    ensures SyncFn(a) == SyncFn(b) <==> a == b
    ensures IsSyncConst(a) == IsSyncConst(b) <==> a == b
  {
    if SyncFn(a) == SyncFn(b) {
      assert a == SyncFn(a)[..|a|] && b == SyncFn(b)[..|b|] && |SyncFn(a)| == |SyncFn(b)|;
    }
    if IsSyncConst(a) == IsSyncConst(b) {
      assert a == IsSyncConst(a)[..|a|] && b == IsSyncConst(b)[..|b|] && |IsSyncConst(a)| == |IsSyncConst(b)|;
    }
  }

  lemma {:induction false} LookupLater<S, L, V>(a: seq<ImplItem<S, L, V>>, b: seq<ImplItem<S, L, V>>, name: string)
    requires forall i :: 0 <= i < |a| && a[i].Fn? ==> a[i].fn.name != name
    ensures Lookup(a + b, name) == Lookup(b, name)
    decreases a
  {
    if a == [] {
      assert a + b == b;
    } else {
      assert (a + b)[0] == a[0] && (a + b)[1..] == a[1..] + b;
      LookupLater(a[1..], b, name);
    }
  }

  lemma {:induction false} ConstLater<S, L, V>(a: seq<ImplItem<S, L, V>>, b: seq<ImplItem<S, L, V>>, name: string)
    requires forall i :: 0 <= i < |a| && a[i].Const? ==> a[i].name != name
    ensures ConstValue(a + b, name) == ConstValue(b, name)
    decreases a
  {
    if a == [] {
      assert a + b == b;
    } else {
      assert (a + b)[0] == a[0] && (a + b)[1..] == a[1..] + b;
      ConstLater(a[1..], b, name);
    }
  }

  lemma HereFirst<S, L, V>(fn: ImplFn<S, L, V>, rest: seq<ImplItem<S, L, V>>)
    ensures ConstValue(SyncItems(fn) + rest, IsSyncConst(fn.name))
    ensures Lookup(SyncItems(fn) + rest, SyncFn(fn.name)) == Some(ImplFn(SyncFn(fn.name), false, fn.body))
    ensures Lookup(SyncItems(fn) + rest, fn.name) == Some(fn) && Lookup([Fn(fn)] + rest, fn.name) == Some(fn)
  {
    Names(fn.name);
    var all := SyncItems(fn) + rest;
    assert all[0] == Fn(fn) && all[1..][0] == SyncItems(fn)[1] && all[1..][1..][0] == SyncItems(fn)[2];
    assert all[1] == SyncItems(fn)[1] && all[2] == SyncItems(fn)[2];
  }

  /** A method that is declared is found; and a shortcut is there exactly for the decorated ones, with
      their body. */
  lemma {:induction false} FoundDecl<S, L, V>(decls: seq<Decl<S, L, V>>, k: nat)
    requires k < |decls| && NoClash(decls)
    ensures var name := decls[k].fn.name;
      Lookup(ItemsOf(decls), name) == Some(decls[k].fn)
      && (IsSync(ItemsOf(decls), name) <==> decls[k].decorated)
      && (decls[k].decorated ==>
            Lookup(ItemsOf(decls), SyncFn(name)) == Some(ImplFn(SyncFn(name), false, decls[k].fn.body)))
    decreases decls
  {
    var first, rest := decls[0], decls[1..];
    var here := if first.decorated then SyncItems(first.fn) else [Fn(first.fn)];
    assert forall j :: 0 <= j < |rest| ==> rest[j] == decls[j + 1];
    if k == 0 {
      HereFirst(first.fn, ItemsOf(rest));
      if !first.decorated {
        NoConst(rest, first.fn.name);
        ConstLater(here, ItemsOf(rest), IsSyncConst(first.fn.name));
      }
    } else {
      var name := decls[k].fn.name;
      assert NoClash(rest);
      FoundDecl(rest, k - 1);
      Injective(first.fn.name, name);
      LookupLater(here, ItemsOf(rest), name);
      LookupLater(here, ItemsOf(rest), SyncFn(name));
      ConstLater(here, ItemsOf(rest), IsSyncConst(name));
    }
  }

  lemma {:induction false} NoConst<S, L, V>(decls: seq<Decl<S, L, V>>, name: string)
    requires forall j :: 0 <= j < |decls| ==> decls[j].fn.name != name
    ensures !IsSync(ItemsOf(decls), name)
    decreases decls
  {
    if decls != [] {
      var here := if decls[0].decorated then SyncItems(decls[0].fn) else [Fn(decls[0].fn)];
      assert forall j :: 0 <= j < |decls[1..]| ==> decls[1..][j] == decls[j + 1];
      NoConst(decls[1..], name);
      Injective(decls[0].fn.name, name);
      ConstLater(here, ItemsOf(decls[1..]), IsSyncConst(name));
    }
  }

  /** A shortcut comes from a decorated method. */
  lemma {:induction false} OnlyDecorated<S, L, V>(decls: seq<Decl<S, L, V>>, name: string) returns (k: nat)
    requires IsSync(ItemsOf(decls), name) && NoClash(decls)
    ensures k < |decls| && decls[k].fn.name == name && decls[k].decorated
  {
    if forall j :: 0 <= j < |decls| ==> decls[j].fn.name != name { NoConst(decls, name); }
    k :| 0 <= k < |decls| && decls[k].fn.name == name;
    FoundDecl(decls, k);
  }

  lemma Associate<T>(a: seq<T>, b: seq<T>, c: seq<T>)
    ensures a + (b + c) == (a + b) + c
  {}

  /** The items are those that `sync` emits, method by method. */
  method Expand<S, L, V>(decls: seq<Decl<S, L, V>>) returns (items: Option<seq<ImplItem<S, L, V>>>)
    ensures items.Some? <==> forall i :: 0 <= i < |decls| && decls[i].decorated ==> decls[i].fn.isAsync
    ensures items.Some? ==> items.value == ItemsOf(decls)
  {
    hide SyncItems, AwaitFree;
    var all: seq<ImplItem<S, L, V>> := [];
    for n := 0 to |decls|
      invariant forall i :: 0 <= i < n && decls[i].decorated ==> decls[i].fn.isAsync
      invariant ItemsOf(decls) == all + ItemsOf(decls[n..])
    {
      assert decls[n..][1..] == decls[n + 1..];
      var rest := ItemsOf(decls[n + 1..]);
      if decls[n].decorated {
        var part := SyncImpl(decls[n].fn);
        if part.None? { return None; }
        Associate(all, part.value, rest);
        all := all + part.value;
      } else {
        Associate(all, [Fn(decls[n].fn)], rest);
        all := all + [Fn(decls[n].fn)];
      }
    }
    items := Some(all);
  }

  // ----- late polls -----

  /** With these arguments the body neither changes the state nor computes its value from it. */
  ghost predicate Inert<S(!new), L, V>(b: Body<S, L, V>, l: L)
    requires AwaitFree(b)
  {
    (forall s :: RunSync(b, s, l).0 == s) && forall s, s' :: RunSync(b, s, l).1 == RunSync(b, s', l).1
  }

  /** What a late poll gives with the shortcut and without. */
  lemma LatePoll<S, L, V>(fn: ImplFn<S, L, V>, s: S, args: L, g: S -> S)
    requires AwaitFree(fn.body)
    ensures var (now, v) := RunSync(fn.body, s, args);
      CallThenPoll(SyncItems(fn), fn.name, s, args, g) == Some((g(now), Ready(v)))
    ensures var (late, v) := RunSync(fn.body, g(s), args);
      CallThenPoll([Fn(fn)], fn.name, s, args, g) == Some((late, Ready(v)))
  {
    FoundSync(fn);
    FirstPoll(fn.body, g(s), args);
  }

  /** Whatever happens between the call and the poll, the shortcut is invisible: in the final
      state and in the outcome, from every state. */
  ghost predicate Invisible<S(!new), L, V>(fn: ImplFn<S, L, V>, args: L)
    requires AwaitFree(fn.body)
  {
    forall s: S,
      g: S -> S :: CallThenPoll(SyncItems(fn), fn.name, s, args, g) == CallThenPoll([Fn(fn)], fn.name, s, args, g)
  }

  /** It is invisible to callers that poll late exactly when the body is inert. */
  lemma InvisibleIff<S(!new), L, V>(fn: ImplFn<S, L, V>, args: L)
    requires AwaitFree(fn.body)
    ensures Invisible(fn, args) <==> Inert(fn.body, args)
  {
    hide CallThenPoll, RunSync, SyncItems, AwaitFree;
    forall s: S, g: S -> S { LatePoll(fn, s, args, g); }
    if Invisible(fn, args) {
      forall s: S, c: S
        ensures RunSync(fn.body, c, args).0 == c && RunSync(fn.body, s, args).1 == RunSync(fn.body, c, args).1
      {
        var g: S -> S := _ => c;
        LatePoll(fn, s, args, g);
        assert CallThenPoll(SyncItems(fn), fn.name, s, args, g) == CallThenPoll([Fn(fn)], fn.name, s, args, g);
      }
    }
  }

  /** An effect-free body that reads the state: called at 0 and polled at 1, the shortcut gives 0 and
      the future 1. */
  lemma ReadsLate()
    ensures var fn := ImplFn("f", true, Return((s: int, _: int) => s));
      AwaitFree(fn.body) && (forall s :: RunSync(fn.body, s, 0).0 == s)
      && CallThenPoll(SyncItems(fn), "f", 0, 0, _ => 1) == Some((1, Ready(0)))
      && CallThenPoll([Fn(fn)], "f", 0, 0, _ => 1) == Some((1, Ready(1)))
  {
    var fn := ImplFn("f", true, Return((s: int, _: int) => s));
    LatePoll(fn, 0, 0, _ => 1);
  }
}
