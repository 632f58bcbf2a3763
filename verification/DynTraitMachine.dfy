/** A client of the generated trait on the machine: returned values are written into storages, and
    driven through the vtables they were given. */
module DynTraitMachine {
  import opened Wrappers
  import opened Data
  import opened Syntax
  import opened Patterns
  import opened DynTraitMacro
  import opened DynTraitRuns
  import opened MaybeSync
  import SyncShortcut
  import Layout
  import Client
  import Machine
  import Runner
  import Values

  class DynClient {
    const impl: Impl
    const kinds: Kinds
    const items: seq<ImplItem>
    const fns: seq<Method>
    const r: Runner.Runner
    var s: Datum
    var objects: seq<Object>

    constructor (impl: Impl, kinds: Kinds, items: seq<ImplItem>, fns: seq<Method>, r: Runner.Runner, s: Datum)
      requires r.Inv(multiset{}) && r.env == impl.env
      ensures Inv() && State() == Session(r.View(), s, [])
      ensures this.impl == impl && this.kinds == kinds && this.items == items && this.fns == fns && this.r == r
    {
      this.impl, this.kinds, this.items, this.fns, this.r, this.s, objects := impl, kinds, items, fns, r, s, [];
    }

    ghost predicate Inv()
      reads this, r, r.mem
    {
      r.Inv(multiset{}) && r.env == impl.env && |r.shapes| == |r.held|
    }

    ghost function State(): Session
      requires |r.shapes| == |r.held|
      reads this, r
    {
      Session(r.View(), s, objects)
    }

    /** The value in a new variable, with the objects it owns moved into it. */
    method BuildValue(o: Hidden) returns (x: nat)
      requires Inv()
      modifies r, r.mem
      ensures Inv() && (r.View(), x) == Build(impl.env, old(r.View()), o)
      decreases o, 0
    {
      hide Runner.Runner.Inv, Runner.Runner.View, Client.Next, Client.ShapesOf, BuildParts;
      if o.ty !in impl.env.types || |o.parts| != |impl.env.types[o.ty].fields| { return 0; }
      var vars := BuildObjects(o.parts, impl.env.types[o.ty].fields);
      r.ShapesHere(multiset{});
      ShapesCount(r.View());
      x := |r.shapes|;
      var made := r.Step(Client.Make(o.ty, o.data, vars));
      r.ShapesHere(multiset{});
    }

    method BuildObjects(os: seq<Hidden>, fields: seq<Values.Field>) returns (vars: seq<nat>)
      requires Inv() && |os| <= |fields|
      modifies r, r.mem
      ensures Inv() && (r.View(), vars) == BuildParts(impl.env, old(r.View()), os, fields)
      decreases os, 0
    {
      hide Runner.Runner.Inv, Runner.Runner.View, WrapValue;
      vars := [];
      for i := 0 to |os|
        invariant Inv() && (r.View(), vars) == BuildParts(impl.env, old(r.View()), os[..i], fields)
      {
        var x := Wrap(fields[i].kind, os[i]);
        vars := vars + [x];
        assert os[..i + 1][..i] == os[..i];
      }
      assert os[..|os|] == os;
    }

    /** `DynObject::new(value)`. */
    method Wrap(kind: Layout.Kind, o: Hidden) returns (x: nat)
      requires Inv()
      modifies r, r.mem
      ensures Inv() && (r.View(), x) == WrapValue(impl.env, kind, old(r.View()), o)
      decreases o, 1
    {
      hide Runner.Runner.Inv, Runner.Runner.View, Client.Next, Client.ShapesOf, Build;
      var y := BuildValue(o);
      r.ShapesHere(multiset{});
      ShapesCount(r.View());
      x := |r.shapes|;
      var done := r.Step(Client.New(kind, y));
      r.ShapesHere(multiset{});
    }

    lemma ShapesCount(w: Client.World)
      ensures |Client.ShapesOf(w.slots)| == |w.slots|
    {}

    /** A returned object goes out of scope. */
    method DropOne(o: Object)
      requires Inv()
      modifies r, r.mem
      ensures Inv() && r.View() == DropObject(impl.env, old(r.View()), o)
    {
      hide Runner.Runner.Inv, Runner.Runner.View, Client.Next;
      var x := VarOf(o);
      if x.Some? {
        var done := r.Step(Client.Drop(x.value));
        r.ShapesHere(multiset{});
      }
    }

    /** A call of a trait method on the `DynObject` in variable `x`. */
    method DriveIn(x: nat, entry: nat, args: seq<Datum>) returns (res: Option<Datum>)
      requires Inv()
      modifies this`s, r, r.mem
      ensures Inv()
      ensures var want := DriveVar(impl.env, old(r.View()), x, entry, args, old(s));
        (res.Some? <==> want.Some?) && (want.Some? ==> want.value == (r.View(), res.value, s))
      ensures res.None? ==> s == old(s) && r.View() == old(r.View())
    {
      hide Runner.Runner.Inv, Runner.Runner.View, Client.Next;
      var out := r.Step(Client.Use(x, [], Client.Action.Call(entry, args + [s])));
      if out.Returned? {
        var (v, s') := Split(out.r, s);
        s := s';
        res := Some(v);
      } else {
        res := None;
        NothingCalled(impl.env, old(r.View()), x, entry, args + [s]);
      }
      r.ShapesHere(multiset{});
    }

    lemma NothingCalled(env: Values.Env, w: Client.World, x: nat, entry: nat, args: seq<Datum>)
      ensures var (w', out) := Client.Next(env, w, Client.Use(x, [], Client.Action.Call(entry, args)));
        out.Returned? || w' == w
    {
      var op := Client.Use(x, [], Client.Action.Call(entry, args));
      if Client.Compiles(env, Client.ShapesOf(w.slots), op) {
        assert w.slots[x].Dyn? && w.slots[x := w.slots[x].(v := w.slots[x].v)] == w.slots;
      }
    }

    /** One poll of a `MaybeSync`. */
    method PollMaybe(m: MaybeSync<nat, Datum>) returns (m': MaybeSync<nat, Datum>, p: Poll<Datum>)
      requires Inv()
      modifies this`s, r, r.mem
      ensures Inv()
      ensures (m', (r.View(), s), p) == PollStep(m, (old(r.View()), old(s)), (x, t) => PollVar(impl.env, x, t))
    {
      hide Runner.Runner.Inv, Runner.Runner.View, DriveVar;
      match m
      case Sync(v) => m', p := SyncPolled, Ready(v);
      case SyncPolled => m', p := SyncPolled, Panicked;
      case Async(x) =>
        var res := DriveIn(x, POLL, []);
        m' := m;
        p := if res.Some? then DatumPoll(res.value) else Panicked;
    }

    /** A method of a returned object. */
    method DriveOne(o: Object, entry: nat, args: seq<Datum>) returns (o': Object, out: Option<Outcome>)
      requires Inv()
      modifies this`s, r, r.mem
      ensures Inv()
      ensures var want := DriveObject(impl.env, old(r.View()), o, entry, args, old(s));
        (out.Some? <==> want.Some?) && (want.Some? ==> want.value == (r.View(), o', s, out.value))
    {
      hide Runner.Runner.Inv, Runner.Runner.View, DriveVar, PollVar;
      o' := o;
      match o
      case InVar(x) =>
        var res := DriveIn(x, entry, args);
        out := if res.Some? then Some(Result(res.value)) else None;
      case Maybe(m) =>
        if entry != POLL || args != [] { return o, None; }
        var m', p := PollMaybe(m);
        o', out := Maybe(m'), Some(Polled(p));
      case NoObject => out := None;
    }

    /** Runs the body of a generated method. */
    method RunGenerated(kind: Layout.Kind, f: ImplItem, args: seq<Datum>) returns (ret: Option<Returned>)
      requires Inv() && f.ImplFn?
      modifies this`s, r, r.mem
      ensures Inv()
      ensures var want := RunBody(impl, kind, f, old(r.View()), old(s), args);
        (ret.Some? <==> want.Some?) && (want.Some? ==> want.value == (r.View(), s, ret.value))
    {
      hide Runner.Runner.Inv, Runner.Runner.View, WrapValue, Forwarded;
      ret := None;
      var passed := Forwarded(f.sig.inputs, f.body.args, args);
      if passed.None? { return; }
      match f.body
      case Forward(callee, _) =>
        var (v, s') := impl.plain(callee, passed.value, s);
        s, ret := s', Some(Returns(v));
      case Wrap(callee, _) =>
        var (o, s') := impl.hidden(callee, passed.value, s);
        var x := Wrap(kind, o);
        s, ret := s', Some(ReturnsObject(InVar(x)));
      case IfSync(isSync, sync, callee, _) =>
        if SyncShortcut.ConstValue(impl.items, isSync) {
          var b := SyncBody(impl.items, sync);
          if b.None? { return; }
          var (s', v) := SyncShortcut.RunSync(b.value, s, passed.value);
          s, ret := s', Some(ReturnsObject(Maybe(Sync(v))));
        } else {
          var (o, s') := impl.hidden(callee, passed.value, s);
          var x := Wrap(kind, o);
          s, ret := s', Some(ReturnsObject(Maybe(Async(x))));
        }
    }

    method Step(op: Op) returns (out: Option<Outcome>)
      requires Inv()
      modifies this, r, r.mem
      ensures Inv()
      ensures var want := DynStep(impl, kinds, items, fns, old(State()), op);
        (out.Some? <==> want.Some?) && (want.Some? ==> want.value == (State(), out.value))
    {
      hide Runner.Runner.Inv, Runner.Runner.View, RunBody, DriveObject, FindImpl, DropObject;
      if op.Drop? {
        if op.handle >= |objects| || objects[op.handle].NoObject? { return None; }
        DropOne(objects[op.handle]);
        objects := objects[op.handle := NoObject];
        return Some(Ended);
      }
      if op.Drive? {
        if op.handle >= |objects| { return None; }
        var o;
        o, out := DriveOne(objects[op.handle], op.entry, op.args);
        objects := objects[op.handle := o];
        return;
      }
      if op.index >= |fns| { return None; }
      var name := fns[op.index].sig.name;
      var f := FindImpl(items, name);
      if f.None? { return None; }
      var ret := RunGenerated(kinds(name), f.value, op.args);
      if ret.None? { return None; }
      if ret.value.Returns? {
        return if op.Call? then Some(Result(ret.value.v)) else None;
      }
      var o := ret.value.o;
      out := Some(Created);
      if op.CallAndPoll? {
        o, out := DriveOne(o, POLL, []);
      }
      objects := objects + [o];
    }

    /** A whole run. */
    method Execute(ops: seq<Op>) returns (outs: Option<seq<Outcome>>)
      requires Inv()
      modifies this, r, r.mem
      ensures Inv()
      ensures var want := DynRun(impl, kinds, items, fns, old(State()), ops);
        (outs.Some? <==> want.Some?) && (want.Some? ==> want.value == (State(), outs.value))
      decreases |ops|
    {
      hide Runner.Runner.Inv, Runner.Runner.View, DynStep;
      if ops == [] { return Some([]); }
      var out := Step(ops[0]);
      if out.None? { return None; }
      var rest := Execute(ops[1..]);
      outs := if rest.Some? then Some([out.value] + rest.value) else None;
    }

    /** The translation preserves meaning on the machine: with returned values in any storages, every
        run has the outcomes and the final state of the original trait, and the machine runs the same
        destructors in the same order. */
    method Preserve(rep: Rep, typed: ArgTypes, decls: Decls,
                    traitItems: seq<Item>, traitTypes: seq<string>, ops: seq<Op>) returns (outs: seq<Outcome>)
      requires Inv() && objects == [] && AsyncMethods(impl, rep, typed, decls)
      requires Expand(traitItems, traitTypes, NOTHING).Ok?
        && items == Expand(traitItems, traitTypes, NOTHING).value.implItems
      requires fns == CallableFns(traitItems) && DistinctMethods(fns)
      requires RunOk(impl, kinds, typed, fns, Orig(s, [], Destructors()), ops)
      modifies this, r, r.mem
      ensures Inv()
      ensures var want := OrigRun(impl, fns, old(Orig(s, [], Destructors())), ops);
        want.Some? && s == want.value.0.s && Destructors() == want.value.0.ends && outs == want.value.1
    {
      hide Runner.Runner.Inv, Runner.Runner.View, DynRun, OrigRun, RunOk, AsyncMethods, Expand, CallableFns,
           Destructors;
      LogSeen();
      TranslationPreserves(impl, kinds, rep, typed, decls, traitItems, traitTypes, r.View(), s, ops);
      var all := Execute(ops);
      outs := all.value;
      LogSeen();
    }

    /** The destructors that have run on the machine. */
    ghost function Destructors(): seq<End>
      reads r.mem
    {
      EndsOfUsers(Machine.UserEvents(r.mem.trace))
    }

    lemma LogSeen()
      requires Inv()
      ensures Destructors() == EndsOfLog(impl.env, r.View().log)
    {}
  }
}
