/** Calls by name on a `DynObject`, through the code `dyn_object` generates and down to the machine. */
module ObjectCalls {
  import opened Wrappers
  import opened Data
  import opened Memory
  import opened Values
  import opened Client
  import Syntax
  import opened DynObjectMacro
  import opened Runner

  /** The type has a method for each of the trait's, with the receiver that its signature declares. */
  predicate Implements(env: Env, ty: TypeId, methods: seq<Syntax.Signature>) {
    ty in env.types && |env.types[ty].methods| == |methods|
    && forall i :: 0 <= i < |methods| ==>
         Syntax.Dispatchable(methods[i]) && env.types[ty].methods[i].receiver == ReceiverKind(methods[i].inputs[0])
  }

  /** The vtable of the machine has, at each position, the entry that the macro emits there: the same
      receiver, for the type and the storage it is built for. */
  lemma EntriesMatch(env: Env, ty: TypeId, kind: Layout.Kind, methods: seq<Syntax.Signature>, types: seq<string>,
                     i: nat)
    requires Implements(env, ty, methods) && i < |methods| && forall m :: m in methods ==> Syntax.Dispatchable(m)
    ensures var entries := VtableFor(env, ty, kind).entries;
      |entries| == |VtableMethods(methods, types)|
      && entries[i] == Entry(ty, kind, VtableMethods(methods, types)[i].receiver, i)
  {}

  // ----- direct calls -----

  /** Calls made on the value itself. */
  function DirectCalls(env: Env, n: Node, calls: seq<(nat, seq<Datum>)>): (r: (Node, seq<Datum>))
    requires n.ty in env.types && forall k :: 0 <= k < |calls| ==> calls[k].0 < |env.types[n.ty].methods|
    ensures r.0.ty == n.ty && |r.1| == |calls|
  {
    if calls == [] then (n, []) else
    var last := |calls| - 1;
    var (now, results) := DirectCalls(env, n, calls[..last]);
    var step := env.types[n.ty].methods[calls[last].0].step(now.data, calls[last].1);
    (now.(data := step.0), results + [step.1])
  }

  predicate AllCallable(methods: seq<Syntax.Signature>, types: seq<string>, calls: seq<(nat, seq<Datum>)>) {
    forall k :: 0 <= k < |calls| ==> Callable(methods, types, calls[k].0, calls[k].1)
  }

  function Named(methods: seq<Syntax.Signature>, calls: seq<(nat, seq<Datum>)>): (r: seq<(string, seq<Datum>)>)
    requires forall k :: 0 <= k < |calls| ==> calls[k].0 < |methods|
    ensures |r| == |calls|
  {
    seq(|calls|, k requires 0 <= k < |calls| => (methods[calls[k].0].name, calls[k].1))
  }

  // ----- calls through the generated code -----

  /** What the calls by name on variable `x` come to on the machine; `None` when one cannot be made. */
  function MachineCalls(impls: seq<ImplFn>, entries: seq<Closure>, x: nat, calls: seq<(string, seq<Datum>)>)
    : (r: Option<seq<Op>>)
    ensures r.Some? ==> |r.value| == |calls| && forall k :: 0 <= k < |calls| ==> r.value[k].Use? && r.value[k].x == x
  {
    if calls == [] then Some([]) else
    var last := |calls| - 1;
    match (MachineCalls(impls, entries, x, calls[..last]), Dispatched(impls, entries, calls[last].0, calls[last].1))
    case (Some(ops), Some(call)) => Some(ops + [Use(x, [], Action.Call(call.entry, call.args))])
    case _ => None
  }

  function Results(outs: seq<Outcome>): (r: seq<Datum>)
    requires forall k :: 0 <= k < |outs| ==> outs[k].Returned?
    ensures |r| == |outs|
  {
    seq(|outs|, k requires 0 <= k < |outs| => outs[k].r)
  }

  /** The calls of the vtable's entries that the concrete calls stand for. */
  function EntryCalls(x: nat, calls: seq<(nat, seq<Datum>)>): (r: seq<Op>)
    ensures |r| == |calls|
  {
    seq(|calls|, k requires 0 <= k < |calls| => Use(x, [], Action.Call(calls[k].0, calls[k].1)))
  }

  /** The calls by name reach the entries of the methods that are named. */
  lemma {:induction false} Reached(x: nat, methods: seq<Syntax.Signature>, types: seq<string>,
                                   calls: seq<(nat, seq<Datum>)>)
    requires (forall m :: m in methods ==> Syntax.Dispatchable(m)) && DistinctNames(methods)
    requires AllCallable(methods, types, calls)
    ensures MachineCalls(ImplMethods(methods, types), VtableMethods(methods, types), x, Named(methods, calls))
            == Some(EntryCalls(x, calls))
    decreases |calls|
  {
    hide Dispatched, Callable, Syntax.Dispatchable, VtableMethods, ImplMethods, DistinctNames;
    InRange(methods, types, calls);
    if calls != [] {
      var last := |calls| - 1;
      Reached(x, methods, types, calls[..last]);
      Reaches(methods, types, calls[last].0, calls[last].1);
      assert Named(methods, calls)[..last] == Named(methods, calls[..last]);
      assert EntryCalls(x, calls) == EntryCalls(x, calls[..last]) + [EntryCalls(x, calls)[last]];
    }
  }

  /** Calls of entries act on the value in the variable and on nothing else. */
  lemma {:induction false} EntriesRun(env: Env, w: World, x: nat, calls: seq<(nat, seq<Datum>)>)
    requires x < |w.slots| && w.slots[x].Dyn? && w.slots[x].v.ty in env.types
    requires forall k :: 0 <= k < |calls| ==> calls[k].0 < |env.types[w.slots[x].v.ty].methods|
    ensures var (w', outs) := Run(env, w, EntryCalls(x, calls));
      var (v, results) := DirectCalls(env, w.slots[x].v, calls);
      w' == w.(slots := w.slots[x := w.slots[x].(v := v)])
      && (forall k :: 0 <= k < |outs| ==> outs[k].Returned?) && Results(outs) == results
    decreases |calls|
  {
    hide Next;
    if calls == [] {
      assert w.slots[x := w.slots[x].(v := w.slots[x].v)] == w.slots;
    } else {
      var last := |calls| - 1;
      EntriesRun(env, w, x, calls[..last]);
      assert EntryCalls(x, calls)[..last] == EntryCalls(x, calls[..last]);
      OneCall(env, Run(env, w, EntryCalls(x, calls[..last])).0, x, calls[last].0, calls[last].1);
    }
  }

  /** Every sequence of calls by name on a `DynObject` gives the results, and leaves the value, that
      calling the concrete type's methods gives, and changes nothing else. */
  lemma DispatchRuns(env: Env, w: World, x: nat, methods: seq<Syntax.Signature>, types: seq<string>,
                     calls: seq<(nat, seq<Datum>)>)
    requires x < |w.slots| && w.slots[x].Dyn? && Implements(env, w.slots[x].v.ty, methods)
    requires (forall m :: m in methods ==> Syntax.Dispatchable(m)) && DistinctNames(methods)
    requires AllCallable(methods, types, calls)
    ensures MachineCalls(ImplMethods(methods, types), VtableMethods(methods, types), x, Named(methods, calls)).Some?
    ensures var impls, entries := ImplMethods(methods, types), VtableMethods(methods, types);
      var (w', outs) := Run(env, w, MachineCalls(impls, entries, x, Named(methods, calls)).value);
      var (v, results) := DirectCalls(env, w.slots[x].v, calls);
      w' == w.(slots := w.slots[x := w.slots[x].(v := v)])
      && (forall k :: 0 <= k < |outs| ==> outs[k].Returned?) && Results(outs) == results
  {
    hide Callable, Syntax.Dispatchable, VtableMethods, ImplMethods, DistinctNames, MachineCalls, Run, DirectCalls;
    InRange(methods, types, calls);
    Reached(x, methods, types, calls);
    EntriesRun(env, w, x, calls);
  }

  lemma InRange(methods: seq<Syntax.Signature>, types: seq<string>, calls: seq<(nat, seq<Datum>)>)
    requires AllCallable(methods, types, calls)
    ensures forall k :: 0 <= k < |calls| ==> calls[k].0 < |methods|
  {}

  lemma OneCall(env: Env, w: World, x: nat, i: nat, vals: seq<Datum>)
    requires x < |w.slots| && w.slots[x].Dyn? && w.slots[x].v.ty in env.types
      && i < |env.types[w.slots[x].v.ty].methods|
    ensures var n := w.slots[x].v;
      var step := env.types[n.ty].methods[i].step(n.data, vals);
      Next(env, w, Use(x, [], Action.Call(i, vals)))
      == (w.(slots := w.slots[x := w.slots[x].(v := n.(data := step.0))]), Returned(step.1))
  {}

  // ----- on the machine -----

  /** The same on the machine, for an object in any storage: the calls run the entries of its vtable
      on the bytes it holds, and its value stays where it is. */
  method CallByName(r: Runner, x: nat, methods: seq<Syntax.Signature>, types: seq<string>,
                    calls: seq<(nat, seq<Datum>)>)
    returns (results: seq<Datum>)
    requires r.Inv(multiset{}) && x < |r.View().slots| && r.View().slots[x].Dyn?
    requires Implements(r.env, r.View().slots[x].v.ty, methods)
    requires (forall m :: m in methods ==> Syntax.Dispatchable(m)) && DistinctNames(methods)
      && AllCallable(methods, types, calls)
    modifies r, r.mem
    ensures r.Inv(multiset{})
    ensures var (v, direct) := DirectCalls(r.env, old(r.View()).slots[x].v, calls);
      results == direct
      && r.View() == old(r.View()).(slots := old(r.View()).slots[x := old(r.View()).slots[x].(v := v)])
    ensures forall y, fields :: 0 <= y < |old(r.held)| ==> r.ValuePlace(y, fields) == old(r.ValuePlace(y, fields))
  {
    hide *;
    r.ShapesHere(multiset{});
    InRange(methods, types, calls);
    DispatchRuns(r.env, r.View(), x, methods, types, calls);
    var ops := MachineCalls(ImplMethods(methods, types), VtableMethods(methods, types), x, Named(methods, calls)).value;
    var outs := r.Execute(ops);
    results := Results(outs);
    UsesTouchNothing(ops);
  }

  lemma UsesTouchNothing(ops: seq<Op>)
    requires forall k :: 0 <= k < |ops| ==> ops[k].Use?
    ensures forall y :: Untouched(ops, y)
  {}
}
