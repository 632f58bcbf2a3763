/** The `dyn_object` macro: vtable entries, the calls made through them, and the function-pointer
    types that join the two. */
module DynObjectMacro {
  import opened Wrappers
  import opened Syntax
  import opened Data
  import opened Patterns
  import Memory

  // ----- receivers -----

  /** `VtableReceiver::new`. */
  function ReceiverKind(a: Arg): Memory.Receiver
    requires a.Receiver?
  {
    if a.lt.None? then Memory.ByPin else if a.mut then Memory.ByMut else Memory.ByRef
  }

  /** The type of a receiver, lifetimes aside. */
  datatype SelfShape = Shared | Unique | Pinned(mut: bool)

  /** What the method declares. */
  function Declares(a: Arg): SelfShape
    requires a.Receiver? && (a.lt.Some? || PinnedRef(a.ty).Some?)
  {
    if a.lt.Some? then (if a.mut then Unique else Shared) else Pinned(PinnedRef(a.ty).value.mut)
  }

  /** What `as_ref`, `as_mut` and `as_pinned_mut` pass. */
  function Passes(r: Memory.Receiver): SelfShape {
    match r
    case ByRef => Shared
    case ByMut => Unique
    case ByPin => Pinned(true)
  }

  /** An entry passes the receiver its method declares, but for `Pin<&Self>`. */
  lemma ReceiverAgrees(a: Arg)
    requires a.Receiver? && (a.lt.Some? || PinnedRef(a.ty).Some?)
    ensures Passes(ReceiverKind(a)) == Declares(a) <==> (a.lt.None? ==> PinnedRef(a.ty).value.mut)
  {
  }

  // ----- function-pointer types -----

  const DYN := "__Dyn"

  /** `ReplaceSelfWithDyn`. */
  function ReplaceSelf(ty: Ty): Ty {
    match ty
    case Path(name, lts, lv, args, av) =>
      Path(seq(|name|, i requires 0 <= i < |name| => if name[i] == "Self" then DYN else name[i]), lts, lv,
           seq(|args|, i requires 0 <= i < |args| => ReplaceSelf(args[i])), av)
    case Ref(lt, m, to) => Ref(lt, m, ReplaceSelf(to))
    case Fn(params, ret) => Fn(seq(|params|, i requires 0 <= i < |params| => ReplaceSelf(params[i])), ReplaceSelf(ret))
  }

  /** A type once `Self` and the associated types are known and lifetimes are erased. `Concrete` is
      the type the vtable is built for, `Object` the `DynObject` it is called on, and `TypeParam(A)`
      the parameter `__TypeA` that both associate with `A`. */
  datatype Resolved =
    | Concrete
    | Object
    | TypeParam(assoc: string)
    | Projection(self: Resolved, path: Name)
    | RPath(name: Name, args: seq<Resolved>)
    | RRef(mut: bool, to: Resolved)
    | RFn(params: seq<Resolved>, ret: Resolved)

  /** `this` names the type `self`, whose associated types `types` are type parameters. */
  function Resolve(ty: Ty, this_: string, self: Resolved, types: seq<string>): Resolved {
    match ty
    case Path(name, _, _, args, _) =>
      if |name| > 0 && name[0] == this_ then
        if |name| == 1 then self
        else if |name| == 2 && name[1] in types then TypeParam(name[1])
        else Projection(self, name[1..])
      else RPath(name, seq(|args|, i requires 0 <= i < |args| => Resolve(args[i], this_, self, types)))
    case Ref(_, m, to) => RRef(m, Resolve(to, this_, self, types))
    case Fn(params, ret) =>
      RFn(seq(|params|, i requires 0 <= i < |params| => Resolve(params[i], this_, self, types)),
          Resolve(ret, this_, self, types))
  }

  /** Where an entry is built, `__Dyn` is the concrete type; where it is called, `Self` is the
      `DynObject`. */
  function EntryTy(ty: Ty, types: seq<string>): Resolved { Resolve(ReplaceSelf(ty), DYN, Concrete, types) }

  function CallTy(ty: Ty, types: seq<string>): Resolved { Resolve(ty, "Self", Object, types) }

  /** A path that a user can write: `Self` only leads, and `__Dyn` is not used. */
  predicate UserTy(ty: Ty) {
    match ty
    case Path(name, _, _, args, _) =>
      DYN !in name && (forall i :: 0 < i < |name| ==> name[i] != "Self")
        && forall i :: 0 <= i < |args| ==> UserTy(args[i])
    case Ref(_, _, to) => UserTy(to)
    case Fn(params, ret) => (forall i :: 0 <= i < |params| ==> UserTy(params[i])) && UserTy(ret)
  }

  /** `Self` occurs otherwise than as `Self::A` for an associated type of the trait. */
  predicate BareSelf(ty: Ty, types: seq<string>) {
    match ty
    case Path(name, _, _, args, _) =>
      if |name| > 0 && name[0] == "Self" then !(|name| == 2 && name[1] in types)
      else exists i :: 0 <= i < |args| && BareSelf(args[i], types)
    case Ref(_, _, to) => BareSelf(to, types)
    case Fn(params, ret) => (exists i :: 0 <= i < |params| && BareSelf(params[i], types)) || BareSelf(ret, types)
  }

  /** A type means the same at both ends of the vtable exactly when it does not name `Self` itself. */
  lemma {:induction false} TypeAgrees(ty: Ty, types: seq<string>)
    requires UserTy(ty)
    ensures EntryTy(ty, types) == CallTy(ty, types) <==> !BareSelf(ty, types)
    decreases ty
  {
    var entry, call := EntryTy(ty, types), CallTy(ty, types);
    match ty
    case Path(name, _, _, args, _) =>
      var now := ReplaceSelf(ty).name;
      assert forall i :: 0 <= i < |name| ==> now[i] == if name[i] == "Self" then DYN else name[i];
      if |name| > 0 && name[0] == "Self" {
        assert now[1..] == name[1..];
      } else {
        assert now == name;
        forall i | 0 <= i < |args| { TypeAgrees(args[i], types); }
        if i :| 0 <= i < |args| && BareSelf(args[i], types) {
          assert entry.args[i] == EntryTy(args[i], types) && call.args[i] == CallTy(args[i], types);
        } else {
          assert entry.args == call.args;
        }
      }
    case Ref(_, _, to) => TypeAgrees(to, types);
    case Fn(params, ret) =>
      forall i | 0 <= i < |params| { TypeAgrees(params[i], types); }
      TypeAgrees(ret, types);
      if i :| 0 <= i < |params| && BareSelf(params[i], types) {
        assert entry.params[i] == EntryTy(params[i], types) && call.params[i] == CallTy(params[i], types);
      } else {
        assert entry.params == call.params;
      }
  }

  /** The types of the parameters after the receiver. */
  function ParamTys(inputs: seq<Arg>): seq<Ty> {
    if inputs == [] then []
    else (if inputs[0].Typed? then [inputs[0].ty] else []) + ParamTys(inputs[1..])
  }

  /** A function-pointer type, lifetimes erased; the receiver is a reference to the storage. */
  datatype FnPointer = FnPointer(receiver: SelfShape, params: seq<Resolved>, ret: Option<Resolved>)

  /** `vtable_fn_pointer` for a new vtable, and for a call. */
  function FnPointerTy(sig: Signature, types: seq<string>, newVtable: bool): FnPointer
    requires Dispatchable(sig)
  {
    var params := ParamTys(sig.inputs);
    FnPointer(Passes(ReceiverKind(sig.inputs[0])),
              seq(|params|, i requires 0 <= i < |params| =>
                if newVtable then EntryTy(params[i], types) else CallTy(params[i], types)),
              if sig.output.Unit? then None
              else Some(if newVtable then EntryTy(OutputTy(sig.output), types)
                else CallTy(OutputTy(sig.output), types)))
  }

  /** The types of the parameters and of the output, which a user can write. */
  predicate UserSig(sig: Signature) {
    (forall ty :: ty in ParamTys(sig.inputs) ==> UserTy(ty)) && (sig.output.Unit? || UserTy(OutputTy(sig.output)))
  }

  /** One of them names `Self` itself. */
  predicate NamesSelf(sig: Signature, types: seq<string>) {
    (exists ty :: ty in ParamTys(sig.inputs) && BareSelf(ty, types))
    || (!sig.output.Unit? && BareSelf(OutputTy(sig.output), types))
  }

  /** An entry is called at the type it was built at, up to lifetimes, exactly when the parameters
      and the output do not name `Self` itself. */
  lemma TransmuteAgrees(sig: Signature, types: seq<string>)
    requires Dispatchable(sig) && UserSig(sig)
    ensures FnPointerTy(sig, types, true) == FnPointerTy(sig, types, false) <==> !NamesSelf(sig, types)
  {
    hide EntryTy, CallTy, BareSelf, UserTy, OutputTy;
    var params, entry, call := ParamTys(sig.inputs), FnPointerTy(sig, types, true), FnPointerTy(sig, types, false);
    forall ty | ty in params { TypeAgrees(ty, types); }
    if !sig.output.Unit? { TypeAgrees(OutputTy(sig.output), types); }
    if i :| 0 <= i < |params| && BareSelf(params[i], types) {
      assert params[i] in params && entry.params[i] != call.params[i];
    } else {
      assert entry.params == call.params;
    }
  }

  // ----- the item loop -----

  datatype Error = NotDispatchable(name: string) | GenericType(name: string) | UnsupportedItem

  /** The first error, in the order of the items. */
  function FirstError(items: seq<Item>): Option<Error> {
    if items == [] then None
    else match items[0]
      case FnItem(m) => if Dispatchable(m.sig) then FirstError(items[1..]) else Some(NotDispatchable(m.sig.name))
      case TypeItem(name, hasParams, _) => if hasParams then Some(GenericType(name)) else FirstError(items[1..])
      case OtherItem(_) => Some(UnsupportedItem)
  }

  function Methods(items: seq<Item>): seq<Signature> {
    if items == [] then []
    else (if items[0].FnItem? then [items[0].fn.sig] else []) + Methods(items[1..])
  }

  function Types(items: seq<Item>): seq<string> {
    if items == [] then []
    else (if items[0].TypeItem? then [items[0].name] else []) + Types(items[1..])
  }

  lemma {:induction false} SnocMethods(items: seq<Item>, item: Item)
    ensures Methods(items + [item]) == Methods(items) + if item.FnItem? then [item.fn.sig] else []
    decreases items
  {
    if items == [] {
      assert items + [item] == [item] && [item][1..] == [];
    } else {
      SnocMethods(items[1..], item);
      assert (items + [item])[1..] == items[1..] + [item];
    }
  }

  lemma {:induction false} SnocTypes(items: seq<Item>, item: Item)
    ensures Types(items + [item]) == Types(items) + if item.TypeItem? then [item.name] else []
    decreases items
  {
    if items == [] {
      assert items + [item] == [item] && [item][1..] == [];
    } else {
      SnocTypes(items[1..], item);
      assert (items + [item])[1..] == items[1..] + [item];
    }
  }

  lemma {:induction false} SnocError(items: seq<Item>, item: Item)
    ensures FirstError(items + [item]) == if FirstError(items).Some? then FirstError(items) else FirstError([item])
    decreases items
  {
    hide Dispatchable;
    if items == [] {
      assert items + [item] == [item];
    } else {
      SnocError(items[1..], item);
      assert (items + [item])[0] == items[0] && (items + [item])[1..] == items[1..] + [item];
    }
  }

  lemma {:induction false} ErrorStays(items: seq<Item>, n: nat)
    requires n <= |items| && FirstError(items[..n]).Some?
    ensures FirstError(items) == FirstError(items[..n])
    decreases items
  {
    if n > 0 {
      assert items[..n][1..] == items[1..][..n - 1];
      if FirstError(items[1..][..n - 1]).Some? { ErrorStays(items[1..], n - 1); }
    }
  }

  /** What a trait for `dyn_object` may have: methods that a vtable entry can be made for, and
      associated types without parameters. */
  predicate Supported(item: Item) {
    match item
    case FnItem(m) => VtableCallable(m.sig)
    case TypeItem(_, hasParams, _) => !hasParams
    case OtherItem(_) => false
  }

  predicate AllSupported(items: seq<Item>) {
    forall item :: item in items ==> Supported(item)
  }

  /** The error about the first item that is not supported. */
  predicate Refused(items: seq<Item>, n: nat, err: Error) {
    n < |items| && AllSupported(items[..n]) && !Supported(items[n])
    && err == match items[n]
              case FnItem(m) => NotDispatchable(m.sig.name)
              case TypeItem(name, _, _) => GenericType(name)
              case OtherItem(_) => UnsupportedItem
  }

  /** A trait is accepted exactly when all its items are supported; otherwise the error is about the
      first that is not. */
  lemma {:induction false} ErrorIff(items: seq<Item>)
    ensures FirstError(items).None? <==> AllSupported(items)
    ensures FirstError(items).Some? ==> exists n: nat :: Refused(items, n, FirstError(items).value)
    decreases items
  {
    hide VtableCallable, Dispatchable;
    if items != [] {
      var rest := items[1..];
      ErrorIff(rest);
      if items[0].FnItem? { DispatchableIff(items[0].fn.sig); }
      assert items == [items[0]] + rest;
      if FirstError(items).Some? {
        if Supported(items[0]) {
          var n: nat :| Refused(rest, n, FirstError(rest).value);
          assert items[..n + 1] == [items[0]] + rest[..n];
          assert Refused(items, n + 1, FirstError(items).value);
        } else {
          assert Refused(items, 0, FirstError(items).value);
        }
      }
    }
  }

  /** The lists hold the methods and the types of the items, and nothing else. */
  predicate Collected(items: seq<Item>, methods: seq<Signature>, types: seq<string>) {
    |methods| + |types| == |items|
    && (forall i :: 0 <= i < |items| ==>
          match items[i]
          case FnItem(m) => m.sig in methods
          case TypeItem(name, _, _) => name in types
          case OtherItem(_) => false)
    && (forall m :: m in methods ==> exists i :: 0 <= i < |items| && items[i].FnItem? && items[i].fn.sig == m)
    && forall t :: t in types ==> exists i :: 0 <= i < |items| && items[i].TypeItem? && items[i].name == t
  }

  lemma {:induction false} CollectedAll(items: seq<Item>)
    requires FirstError(items).None?
    ensures Collected(items, Methods(items), Types(items))
    decreases items
  {
    hide Dispatchable;
    if items != [] {
      CollectedAll(items[1..]);
      CollectedFirst(items[0], items[1..], Methods(items[1..]), Types(items[1..]));
      assert items == [items[0]] + items[1..];
    }
  }

  lemma CollectedFirst(item: Item, rest: seq<Item>, methods: seq<Signature>, types: seq<string>)
    requires Collected(rest, methods, types) && !item.OtherItem?
    ensures Collected([item] + rest, (if item.FnItem? then [item.fn.sig] else []) + methods,
                      (if item.TypeItem? then [item.name] else []) + types)
  {
    var items := [item] + rest;
    assert items[0] == item && forall i :: 0 <= i < |rest| ==> items[i + 1] == rest[i];
    forall m | m in methods ensures exists i :: 0 <= i < |items| && items[i].FnItem? && items[i].fn.sig == m {
      var i :| 0 <= i < |rest| && rest[i].FnItem? && rest[i].fn.sig == m;
      assert items[i + 1] == rest[i];
    }
    forall t | t in types ensures exists i :: 0 <= i < |items| && items[i].TypeItem? && items[i].name == t {
      var i :| 0 <= i < |rest| && rest[i].TypeItem? && rest[i].name == t;
      assert items[i + 1] == rest[i];
    }
  }

  class DynObject {
    var types: seq<string>
    var methods: seq<Signature>

    constructor ()
      ensures types == [] && methods == []
    {
      types, methods := [], [];
    }

    /** The loop of `dyn_object_impl`, which stops at the first error. */
    method ParseItems(items: seq<Item>) returns (err: Option<Error>)
      requires types == [] && methods == []
      modifies this
      ensures err == FirstError(items)
      ensures err.None? ==> methods == Methods(items) && types == Types(items)
      ensures err.None? <==> AllSupported(items)
      ensures err.Some? ==> exists n: nat :: Refused(items, n, err.value)
      ensures err.None? ==> Collected(items, methods, types)
      ensures err.None? ==> forall m :: m in methods ==> Dispatchable(m)
    {
      hide Dispatchable, Refused, AllSupported, Collected;
      ErrorIff(items);
      if FirstError(items).None? { CollectedAll(items); }
      for n := 0 to |items|
        invariant FirstError(items[..n]).None? && methods == Methods(items[..n]) && types == Types(items[..n])
        invariant forall m :: m in methods ==> Dispatchable(m)
      {
        assert items[..n + 1] == items[..n] + [items[n]];
        SnocMethods(items[..n], items[n]);
        SnocTypes(items[..n], items[n]);
        SnocError(items[..n], items[n]);
        assert [items[n]][1..] == [];
        match items[n]
        case FnItem(fn) =>
          if !Dispatchable(fn.sig) {
            ErrorStays(items, n + 1);
            return Some(NotDispatchable(fn.sig.name));
          }
          methods := methods + [fn.sig];
        case TypeItem(name, hasParams, _) =>
          if hasParams {
            ErrorStays(items, n + 1);
            return Some(GenericType(name));
          }
          types := types + [name];
        case OtherItem(_) =>
          ErrorStays(items, n + 1);
          return Some(UnsupportedItem);
      }
      assert items[..|items|] == items;
      err := None;
    }
  }

  // ----- the generated code and what it does -----

  /** A vtable entry: `|__self, params| __Dyn::callee(__self.as_(), args)`, built at `pointer`. */
  datatype Closure = Closure(
    field: string,
    receiver: Memory.Receiver,
    pointer: FnPointer,
    params: seq<Pat>,
    callee: string,
    args: seq<Expr>
  )

  /** A method of the generated `impl`: it calls the entry in `field`, at `pointer`, on the storage. */
  datatype ImplFn = ImplFn(sig: Signature, field: string, receiver: Memory.Receiver, pointer: FnPointer,
                           args: seq<Expr>)

  function VtableMethod(sig: Signature, types: seq<string>): Closure
    requires Dispatchable(sig)
  {
    var args := FnArgs(sig.inputs)[1..];
    Closure(sig.name, ReceiverKind(sig.inputs[0]), FnPointerTy(sig, types, true), ExprPats(args), sig.name, args)
  }

  function ImplMethod(sig: Signature, types: seq<string>): ImplFn
    requires Dispatchable(sig)
  {
    ImplFn(sig, sig.name, ReceiverKind(sig.inputs[0]), FnPointerTy(sig, types, false), FnArgs(sig.inputs)[1..])
  }

  function VtableMethods(methods: seq<Signature>, types: seq<string>): (r: seq<Closure>)
    requires forall m :: m in methods ==> Dispatchable(m)
    ensures |r| == |methods|
  {
    seq(|methods|, i requires 0 <= i < |methods| => VtableMethod(methods[i], types))
  }

  function ImplMethods(methods: seq<Signature>, types: seq<string>): (r: seq<ImplFn>)
    requires forall m :: m in methods ==> Dispatchable(m)
    ensures |r| == |methods|
  {
    seq(|methods|, i requires 0 <= i < |methods| => ImplMethod(methods[i], types))
  }

  /** The position of a field in the vtable. */
  function FindEntry(entries: seq<Closure>, field: string): (r: Option<nat>)
    ensures r.Some? ==> r.value < |entries|
  {
    if entries == [] then None
    else if entries[0].field == field then Some(0)
    else match FindEntry(entries[1..], field)
      case Some(i) => Some(i + 1)
      case None => None
  }

  function FindImpl(impls: seq<ImplFn>, name: string): Option<ImplFn> {
    if impls == [] then None
    else if impls[0].sig.name == name then Some(impls[0])
    else FindImpl(impls[1..], name)
  }

  /** The entry that runs, and the call of the concrete type's own method that it makes. */
  datatype Call = Call(entry: nat, callee: string, self: SelfShape, args: seq<Datum>)

  /** A call through the generated `impl` and then through the vtable; `None` when some name or
      value is missing, or the entry is called at another type than it was built at. */
  function Dispatched(impls: seq<ImplFn>, entries: seq<Closure>, name: string, vals: seq<Datum>): Option<Call> {
    match FindImpl(impls, name)
    case None => None
    case Some(f) =>
      match Forwarded(f.sig.inputs, f.args, vals)
      case None => None
      case Some(args) =>
        match FindEntry(entries, f.field)
        case None => None
        case Some(i) =>
          if entries[i].receiver != f.receiver || entries[i].pointer != f.pointer then None
          else match MatchAll(entries[i].params, args)
            case None => None
            case Some(env) =>
              match EvalAll(ExprPats(entries[i].args), env)
              case None => None
              case Some(passed) => Some(Call(i, entries[i].callee, Passes(entries[i].receiver), passed))
  }

  predicate DistinctNames(methods: seq<Signature>) {
    forall i, j :: 0 <= i < j < |methods| ==> methods[i].name != methods[j].name
  }

  lemma {:induction false} Finds(methods: seq<Signature>, types: seq<string>, i: nat)
    requires i < |methods| && DistinctNames(methods) && forall m :: m in methods ==> Dispatchable(m)
    ensures FindImpl(ImplMethods(methods, types), methods[i].name) == Some(ImplMethod(methods[i], types))
    ensures FindEntry(VtableMethods(methods, types), methods[i].name) == Some(i)
    decreases methods
  {
    hide Dispatchable, FnPointerTy, FnArgs, ExprPats;
    var rest, impls, entries := methods[1..], ImplMethods(methods, types), VtableMethods(methods, types);
    if i > 0 {
      assert rest[i - 1] == methods[i];
      assert forall j :: 0 <= j < |rest| ==> rest[j] == methods[j + 1];
      Finds(rest, types, i - 1);
      assert impls[1..] == ImplMethods(rest, types) && entries[1..] == VtableMethods(rest, types);
      assert impls[0].sig.name == methods[0].name && entries[0].field == methods[0].name;
    }
  }

  /** What the generated code of a method needs of it: parameters that can be named, another
      receiver than `Pin<&Self>`, and no `Self` in its types but `Self::A`. */
  predicate Forwards(sig: Signature, types: seq<string>)
    requires Dispatchable(sig)
  {
    (forall p :: p in ParamPats(sig.inputs) ==> Nameable(p))
    && (sig.inputs[0].lt.None? ==> PinnedRef(sig.inputs[0].ty).value.mut)
    && !NamesSelf(sig, types)
  }

  /** Dispatch preserves meaning: a call through the generated `impl` reaches the concrete type's
      method of the same name, with the receiver it declares and the same arguments in the same
      order, exactly when the method can be forwarded. */
  lemma DispatchReaches(methods: seq<Signature>, types: seq<string>, i: nat, vals: seq<Datum>)
    requires (forall m :: m in methods ==> Dispatchable(m)) && DistinctNames(methods)
    requires i < |methods| && Dispatchable(methods[i]) && UserSig(methods[i])
    requires Distinct(ParamPats(methods[i].inputs)) && MatchAll(ParamPats(methods[i].inputs), vals).Some?
    ensures Dispatched(ImplMethods(methods, types), VtableMethods(methods, types), methods[i].name, vals) ==
              Some(Call(i, methods[i].name, Declares(methods[i].inputs[0]), vals))
            <==> Forwards(methods[i], types)
  {
    hide Match, MatchAll, Eval, EvalAll, Clear, Distinct, Nameable, HasWild, FindImpl, FindEntry, ParamPats, ExprPats,
         FnArgs,
         FnPointerTy, NamesSelf, UserSig;
    var m := methods[i];
    var pats := ParamPats(m.inputs);
    Finds(methods, types, i);
    ReceiverAgrees(m.inputs[0]);
    TransmuteAgrees(m, types);
    ExprPatsOfArgs(m.inputs);
    ArgsForwarded(m.inputs, vals);
    ClearAllMatch(pats, vals);
    ClearTwice(pats);
    if Forwarded(m.inputs, FnArgs(m.inputs)[1..], vals).Some? {
      var args := Forwarded(m.inputs, FnArgs(m.inputs)[1..], vals).value;
      WildsHaveNoValue(pats, MatchAll(pats, vals).value);
      if MatchAll(ClearAll(pats), args).Some? {
        RenamedAll(ClearAll(pats), args, MatchAll(ClearAll(pats), args).value);
      }
    }
  }

  /** A method of the trait that can be forwarded, with arguments its parameters match. */
  predicate Callable(methods: seq<Signature>, types: seq<string>, i: nat, vals: seq<Datum>) {
    i < |methods| && Dispatchable(methods[i]) && UserSig(methods[i]) && Forwards(methods[i], types)
    && Distinct(ParamPats(methods[i].inputs)) && MatchAll(ParamPats(methods[i].inputs), vals).Some?
  }

  lemma Reaches(methods: seq<Signature>, types: seq<string>, i: nat, vals: seq<Datum>)
    requires (forall m :: m in methods ==> Dispatchable(m)) && DistinctNames(methods)
      && Callable(methods, types, i, vals)
    ensures Dispatched(ImplMethods(methods, types), VtableMethods(methods, types), methods[i].name, vals)
            == Some(Call(i, methods[i].name, Declares(methods[i].inputs[0]), vals))
  {
    hide Dispatched, Match, MatchAll, Distinct, Forwards, ParamPats, VtableMethods, ImplMethods;
    DispatchReaches(methods, types, i, vals);
  }
}
