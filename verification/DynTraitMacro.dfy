/** The item loop of `dyn_trait`: which items it keeps, and the items it generates for each. */
module DynTraitMacro {
  import opened Wrappers
  import opened Syntax
  import opened Patterns
  import opened DynMethod
  import SyncShortcut

  // ----- generated code -----

  /** A generated method body: `__Dyn::callee(args)`, the same in a new `DynObject`, or the choice
      between the synchronous and the asynchronous method. */
  datatype Body =
    | Forward(callee: string, args: seq<Expr>)
    | Wrap(callee: string, args: seq<Expr>)
    | IfSync(isSync: string, sync: string, callee: string, args: seq<Expr>)

  /** An item of the generated trait. */
  datatype DynItem = DynType(name: string) | DynFn(sig: Signature)

  /** An item of its blanket implementation. */
  datatype ImplItem = ImplType(name: string) | ImplFn(sig: Signature, body: Body)

  /** A hidden item added to the original trait for a `maybe_sync` method. */
  datatype ExtraItem = SyncFn(sig: Signature) | IsSyncConst(name: string)

  /** A storage parameter of the generated trait; without a path it is `DefaultStorage`. */
  datatype StorageParam = StorageParam(name: string, path: Option<string>)

  datatype Generated = Generated(
    extras: seq<ExtraItem>,
    dynItems: seq<DynItem>,
    implItems: seq<ImplItem>,
    storages: seq<StorageParam>
  )

  const NOTHING := Generated([], [], [], [])

  function Append(a: Generated, b: Generated): Generated {
    Generated(a.extras + b.extras, a.dynItems + b.dynItems, a.implItems + b.implItems, a.storages + b.storages)
  }

  datatype Error =
    | NotOpaque(name: string)
    | UnknownAttribute
    | NotAsync(name: string)
    | GenericDynObject
    | AttributeNotList

  datatype Result<+T> = Ok(value: T) | Err(error: Error)

  // ----- attributes of a method -----

  datatype MethodAttrs = MethodAttrs(storage: Option<string>, maybeSync: bool)

  const NO_ATTRS := MethodAttrs(None, false)

  /** The options of one attribute; a later `storage` replaces an earlier one. */
  function ParseOptions(options: seq<AttrOption>, attrs: MethodAttrs): Result<MethodAttrs> {
    if options == [] then Ok(attrs)
    else match options[0]
      case StorageOption(path) => ParseOptions(options[1..], attrs.(storage := Some(path)))
      case MaybeSyncOption => ParseOptions(options[1..], attrs.(maybeSync := true))
      case UnknownOption => Err(UnknownAttribute)
  }

  function ParseAttrs(attrs: seq<Attr>, sig: Signature, acc: MethodAttrs): Result<MethodAttrs> {
    if attrs == [] then Ok(acc)
    else match attrs[0]
      case OtherAttr(_) => ParseAttrs(attrs[1..], sig, acc)
      case DynTraitAttr(options) =>
        if !HasRpit(sig) then Err(NotOpaque(sig.name))
        else match ParseOptions(options, acc)
          case Err(e) => Err(e)
          case Ok(now) => ParseAttrs(attrs[1..], sig, now)
  }

  method ParseMethodAttrs(m: Method) returns (r: Result<MethodAttrs>)
    ensures r == ParseAttrs(m.attrs, m.sig, NO_ATTRS)
  {
    var acc := NO_ATTRS;
    for n := 0 to |m.attrs|
      invariant ParseAttrs(m.attrs, m.sig, NO_ATTRS) == ParseAttrs(m.attrs[n..], m.sig, acc)
    {
      assert m.attrs[n..][1..] == m.attrs[n + 1..];
      match m.attrs[n]
      case OtherAttr(_) =>
      case DynTraitAttr(options) =>
        if !HasRpit(m.sig) { return Err(NotOpaque(m.sig.name)); }
        var before := acc;
        for k := 0 to |options|
          invariant ParseOptions(options, before) == ParseOptions(options[k..], acc)
        {
          assert options[k..][1..] == options[k + 1..];
          match options[k]
          case StorageOption(path) => acc := acc.(storage := Some(path));
          case MaybeSyncOption => acc := acc.(maybeSync := true);
          case UnknownOption => return Err(UnknownAttribute);
        }
    }
    r := Ok(acc);
  }

  // ----- one method -----

  function MaybeSyncOutput(o: Output): Output {
    match o
    case DynObj(bounds, storage) => MaybeSyncObj(bounds, storage)
    case _ => o
  }

  /** What `parse_method` pushes for a method whose attributes are `attrs`. */
  function MethodItems(sig: Signature, attrs: MethodAttrs, traitTypes: seq<string>): Result<Generated> {
    var now, rpit, args := DynSig(sig, traitTypes), Rpit(Prepared(sig)), FnArgs(sig.inputs);
    var storages := if rpit.Some? then [StorageParam(StorageName(sig.name), attrs.storage)] else [];
    if attrs.maybeSync then
      match if rpit.Some? then FutureOutput(rpit.value) else None
      case None => Err(NotAsync(sig.name))
      case Some(output) =>
        var sync := sig.(isAsync := false, name := SyncShortcut.SyncFn(sig.name), output := Plain(output));
        var maybe := now.(output := MaybeSyncOutput(now.output));
        Ok(Generated([SyncFn(sync), IsSyncConst(SyncShortcut.IsSyncConst(sig.name))],
                     [DynFn(maybe)],
                     [ImplFn(maybe,
                       IfSync(SyncShortcut.IsSyncConst(sig.name), SyncShortcut.SyncFn(sig.name), sig.name, args))],
                     storages))
    else
      Ok(Generated([], [DynFn(now)],
        [ImplFn(now, if rpit.Some? then Wrap(sig.name, args) else Forward(sig.name, args))], storages))
  }

  // ----- the loop -----

  /** The items the loop does not skip. */
  predicate Kept(item: Item) {
    match item
    case TypeItem(_, hasParams, hasWhere) => !hasParams && !hasWhere
    case FnItem(fn) => Dispatchable(fn.sig)
    case OtherItem(_) => false
  }

  function ItemItems(item: Item, traitTypes: seq<string>): Result<Generated> {
    if !Kept(item) then Ok(NOTHING)
    else match item
      case TypeItem(name, _, _) => Ok(Generated([], [DynType(name)], [ImplType(name)], []))
      case FnItem(fn) =>
        match ParseAttrs(fn.attrs, fn.sig, NO_ATTRS)
        case Err(e) => Err(e)
        case Ok(attrs) => MethodItems(fn.sig, attrs, traitTypes)
  }

  /** The items generated for a list of items after `acc`, or the first error. */
  function Expand(items: seq<Item>, traitTypes: seq<string>, acc: Generated): Result<Generated> {
    if items == [] then Ok(acc)
    else match ItemItems(items[0], traitTypes)
      case Err(e) => Err(e)
      case Ok(g) => Expand(items[1..], traitTypes, Append(acc, g))
  }

  // ----- what an expansion must contain -----

  function PlainTypeOf(item: Item): seq<string> {
    match item
    case TypeItem(name, false, false) => [name]
    case _ => []
  }

  function CallableOf(item: Item): seq<Method> {
    match item
    case FnItem(fn) => if VtableCallable(fn.sig) then [fn] else []
    case _ => []
  }

  /** The associated types that have neither parameters nor a `where` clause. */
  function PlainTypes(items: seq<Item>): seq<string> {
    if items == [] then [] else PlainTypeOf(items[0]) + PlainTypes(items[1..])
  }

  /** The methods that a vtable entry can be made for. */
  function CallableFns(items: seq<Item>): seq<Method> {
    if items == [] then [] else CallableOf(items[0]) + CallableFns(items[1..])
  }

  /** The elements that `f` picks, in order. */
  function Flat<A, B>(f: A -> seq<B>, s: seq<A>): seq<B> {
    if s == [] then [] else Flat(f, s[..|s| - 1]) + f(s[|s| - 1])
  }

  lemma {:induction false} FlatBoth<A, B>(f: A -> seq<B>, a: seq<A>, b: seq<A>)
    ensures Flat(f, a + b) == Flat(f, a) + Flat(f, b)
    decreases |b|
  {
    if b == [] {
      assert a + b == a;
    } else {
      FlatBoth(f, a, b[..|b| - 1]);
      assert (a + b)[..|a + b| - 1] == a + b[..|b| - 1];
    }
  }

  lemma FlatOne<A, B>(f: A -> seq<B>, x: A)
    ensures Flat(f, [x]) == f(x)
  {
    var one := [x];
    assert one[..|one| - 1] == [];
    assert Flat(f, one[..|one| - 1]) + f(x) == f(x);
  }

  function DynTypeOf(item: DynItem): seq<string> { if item.DynType? then [item.name] else [] }

  function DynFnOf(item: DynItem): seq<Signature> { if item.DynFn? then [item.sig] else [] }

  function ImplTypeOf(item: ImplItem): seq<string> { if item.ImplType? then [item.name] else [] }

  function ImplFnOf(item: ImplItem): seq<(Signature, Body)> { if item.ImplFn? then [(item.sig, item.body)] else [] }

  /** The storage named by an output. */
  function StorageOf(sig: Signature): seq<string> {
    match sig.output
    case DynObj(_, storage) => [storage]
    case MaybeSyncObj(_, storage) => [storage]
    case _ => []
  }

  function DynTypes(items: seq<DynItem>): seq<string> { Flat(DynTypeOf, items) }

  function DynFns(items: seq<DynItem>): seq<Signature> { Flat(DynFnOf, items) }

  function ImplTypes(items: seq<ImplItem>): seq<string> { Flat(ImplTypeOf, items) }

  function ImplFns(items: seq<ImplItem>): seq<(Signature, Body)> { Flat(ImplFnOf, items) }

  function OutputStorages(sigs: seq<Signature>): seq<string> { Flat(StorageOf, sigs) }

  function StorageNames(params: seq<StorageParam>): (r: seq<string>)
    ensures |r| == |params|
  {
    seq(|params|, i requires 0 <= i < |params| => params[i].name)
  }

  /** The body returns what the output says. */
  predicate BodyReturns(sig: Signature, body: Body) {
    match body
    case Wrap(_, _) => sig.output.DynObj?
    case IfSync(_, _, _, _) => sig.output.MaybeSyncObj?
    case Forward(_, _) => !sig.output.DynObj? && !sig.output.MaybeSyncObj?
  }

  /** A method that a user can write: its output is not a generated one. */
  predicate Written(fn: Method) { !fn.sig.output.DynObj? && !fn.sig.output.MaybeSyncObj? }

  /** A generated method with its name, a body that returns what it declares, and its own output
      unless that was opaque. */
  predicate StandsFor(sig: Signature, body: Body, fn: Method) {
    sig.name == fn.sig.name
    && (Written(fn) ==>
          BodyReturns(sig, body) && (if fn.sig.isAsync || fn.sig.output.Opaque? then !body.Forward?
                                 else body.Forward? && sig.output == fn.sig.output))
  }

  /** The generated trait and its implementation have these types and these methods, in order, and the
      storages that the outputs name are the storage parameters. */
  predicate Carries(g: Generated, types: seq<string>, fns: seq<Method>) {
    DynTypes(g.dynItems) == types && ImplTypes(g.implItems) == types
    && |DynFns(g.dynItems)| == |ImplFns(g.implItems)| == |fns|
    && (forall k :: 0 <= k < |fns| ==>
          ImplFns(g.implItems)[k].0 == DynFns(g.dynItems)[k]
          && StandsFor(DynFns(g.dynItems)[k], ImplFns(g.implItems)[k].1, fns[k]))
    && ((forall fn :: fn in fns ==> Written(fn)) ==> OutputStorages(DynFns(g.dynItems)) == StorageNames(g.storages))
  }

  lemma CarriesBoth(a: Generated, b: Generated, types: seq<string>, types': seq<string>, fns: seq<Method>,
                    fns': seq<Method>)
    requires Carries(a, types, fns) && Carries(b, types', fns')
    ensures Carries(Append(a, b), types + types', fns + fns')
  {
    hide Flat, StandsFor, Written;
    FlatBoth(DynTypeOf, a.dynItems, b.dynItems);
    FlatBoth(DynFnOf, a.dynItems, b.dynItems);
    FlatBoth(ImplTypeOf, a.implItems, b.implItems);
    FlatBoth(ImplFnOf, a.implItems, b.implItems);
    FlatBoth(StorageOf, DynFns(a.dynItems), DynFns(b.dynItems));
    assert StorageNames(a.storages + b.storages) == StorageNames(a.storages) + StorageNames(b.storages);
  }

  /** What is pushed for a method, whatever its attributes. */
  lemma MethodCarries(fn: Method, attrs: MethodAttrs, traitTypes: seq<string>)
    requires MethodItems(fn.sig, attrs, traitTypes).Ok?
    ensures Carries(MethodItems(fn.sig, attrs, traitTypes).value, [], [fn])
  {
    hide DynTypes, DynFns, ImplTypes, ImplFns, OutputStorages, DynSig, FnArgs, FutureOutput, Prepared;
    var g := MethodItems(fn.sig, attrs, traitTypes).value;
    Signed(fn.sig, traitTypes);
    var sig, body := g.dynItems[0].sig, g.implItems[0].body;
    OneFn(sig, body);
    assert g.dynItems == [DynFn(sig)] && g.implItems == [ImplFn(sig, body)];
    if Written(fn) {
      assert BodyReturns(sig, body);
      assert OutputStorages(DynFns(g.dynItems)) == StorageNames(g.storages);
    } else {
      assert fn in [fn];
    }
  }

  lemma TypeCarries(name: string)
    ensures Carries(Generated([], [DynType(name)], [ImplType(name)], []), [name], [])
  {
    OneType(name);
    assert OutputStorages([]) == StorageNames([]);
  }

  /** What is pushed for one item. */
  lemma ItemCarries(item: Item, traitTypes: seq<string>)
    requires ItemItems(item, traitTypes).Ok?
    ensures Carries(ItemItems(item, traitTypes).value, PlainTypeOf(item), CallableOf(item))
  {
    hide VtableCallable, Dispatchable, ParseAttrs, MethodItems, Carries;
    NothingCarries();
    match item
    case TypeItem(name, _, _) => TypeCarries(name);
    case FnItem(fn) =>
      DispatchableIff(fn.sig);
      if VtableCallable(fn.sig) { MethodCarries(fn, ParseAttrs(fn.attrs, fn.sig, NO_ATTRS).value, traitTypes); }
    case OtherItem(_) =>
  }

  lemma OneType(name: string)
    ensures DynTypes([DynType(name)]) == [name] && DynFns([DynType(name)]) == []
    ensures ImplTypes([ImplType(name)]) == [name] && ImplFns([ImplType(name)]) == []
  {
    hide Flat;
    FlatOne(DynTypeOf, DynType(name));
    FlatOne(DynFnOf, DynType(name));
    FlatOne(ImplTypeOf, ImplType(name));
    FlatOne(ImplFnOf, ImplType(name));
  }

  lemma OneFn(sig: Signature, body: Body)
    ensures DynTypes([DynFn(sig)]) == [] && DynFns([DynFn(sig)]) == [sig]
    ensures ImplTypes([ImplFn(sig, body)]) == [] && ImplFns([ImplFn(sig, body)]) == [(sig, body)]
    ensures OutputStorages([sig]) == StorageOf(sig)
  {
    hide Flat;
    FlatOne(DynTypeOf, DynFn(sig));
    FlatOne(DynFnOf, DynFn(sig));
    FlatOne(ImplTypeOf, ImplFn(sig, body));
    FlatOne(ImplFnOf, ImplFn(sig, body));
    FlatOne(StorageOf, sig);
  }

  /** The output of a rewritten signature names the storage of its method. */
  lemma Signed(sig: Signature, traitTypes: seq<string>)
    ensures DynSig(sig, traitTypes).name == sig.name
    ensures Rpit(Prepared(sig)).Some? <==> sig.isAsync || sig.output.Opaque?
    ensures Rpit(Prepared(sig)).Some? ==>
      DynSig(sig, traitTypes).output.DynObj? && DynSig(sig, traitTypes).output.storage == StorageName(sig.name)
    ensures Rpit(Prepared(sig)).None? ==> DynSig(sig, traitTypes).output == sig.output
  {}

  lemma NothingCarries()
    ensures Carries(NOTHING, [], [])
  {}

  lemma {:induction false} ExpandCarries(items: seq<Item>, traitTypes: seq<string>, acc: Generated, types: seq<string>,
                                         fns: seq<Method>)
    requires Expand(items, traitTypes, acc).Ok? && Carries(acc, types, fns)
    ensures Carries(Expand(items, traitTypes, acc).value, types + PlainTypes(items), fns + CallableFns(items))
    decreases items
  {
    hide Carries, ItemItems, PlainTypeOf, CallableOf;
    if items == [] {
      assert types + [] == types && fns + [] == fns;
    } else {
      var g, types', fns' := ItemItems(items[0], traitTypes).value, PlainTypeOf(items[0]), CallableOf(items[0]);
      ItemCarries(items[0], traitTypes);
      CarriesBoth(acc, g, types, types', fns, fns');
      ExpandCarries(items[1..], traitTypes, Append(acc, g), types + types', fns + fns');
      Assoc(types, types', PlainTypes(items[1..]));
      Assoc(fns, fns', CallableFns(items[1..]));
    }
  }

  lemma Assoc<A>(a: seq<A>, b: seq<A>, c: seq<A>)
    ensures (a + b) + c == a + (b + c)
  {}

  class DynTrait {
    const traitTypes: seq<string>
    var extras: seq<ExtraItem>
    var dynItems: seq<DynItem>
    var implItems: seq<ImplItem>
    var storages: seq<StorageParam>

    constructor (traitTypes: seq<string>)
      ensures this.traitTypes == traitTypes && Items() == NOTHING
    {
      this.traitTypes, extras, dynItems, implItems, storages := traitTypes, [], [], [], [];
    }

    function Items(): Generated
      reads this
    {
      Generated(extras, dynItems, implItems, storages)
    }

    method ParseType(name: string)
      modifies this
      ensures Items() == Append(old(Items()), Generated([], [DynType(name)], [ImplType(name)], []))
    {
      dynItems := dynItems + [DynType(name)];
      implItems := implItems + [ImplType(name)];
    }

    /** Nothing is promised about what was pushed before an error: the expansion is abandoned. */
    method ParseMethod(m: Method) returns (err: Option<Error>)
      requires Dispatchable(m.sig)
      modifies this
      ensures err.Some? ==> ItemItems(FnItem(m), traitTypes) == Err(err.value)
      ensures err.None? ==> ItemItems(FnItem(m), traitTypes).Ok?
      ensures err.None? ==> Items() == Append(old(Items()), ItemItems(FnItem(m), traitTypes).value)
      ensures err.None? ==> Carries(ItemItems(FnItem(m), traitTypes).value, [], [m])
    {
      hide Carries, VtableCallable;
      var parsed := ParseMethodAttrs(m);
      if parsed.Err? { return Some(parsed.error); }
      var attrs := parsed.value;
      var dynMethod := new MethodSig(m.sig);
      var rpit := dynMethod.New(traitTypes);
      var sig, args := dynMethod.Sig(), FnArgs(m.sig.inputs);
      if rpit.Some? {
        storages := storages + [StorageParam(StorageName(m.sig.name), attrs.storage)];
      }
      if attrs.maybeSync {
        var output := if rpit.Some? then FutureOutput(rpit.value) else None;
        if output.None? { return Some(NotAsync(m.sig.name)); }
        var syncName, isSync := SyncShortcut.SyncFn(m.sig.name), SyncShortcut.IsSyncConst(m.sig.name);
        extras := extras + [SyncFn(m.sig.(isAsync := false, name := syncName, output := Plain(output.value)))];
        extras := extras + [IsSyncConst(isSync)];
        var maybe := sig.(output := MaybeSyncOutput(sig.output));
        implItems := implItems + [ImplFn(maybe, IfSync(isSync, syncName, m.sig.name, args))];
        dynItems := dynItems + [DynFn(maybe)];
      } else {
        var body := if rpit.Some? then Wrap(m.sig.name, args) else Forward(m.sig.name, args);
        implItems := implItems + [ImplFn(sig, body)];
        dynItems := dynItems + [DynFn(sig)];
      }
      MethodCarries(m, attrs, traitTypes);
      err := None;
    }

    /** The loop of `dyn_trait_impl`. */
    method ParseItems(items: seq<Item>) returns (err: Option<Error>)
      requires Items() == NOTHING
      modifies this
      ensures Expand(items, traitTypes, NOTHING) == (if err.None? then Ok(Items()) else Err(err.value))
      ensures err.None? ==> Carries(Items(), PlainTypes(items), CallableFns(items))
    {
      hide Carries, PlainTypes, CallableFns;
      for n := 0 to |items|
        invariant Expand(items, traitTypes, NOTHING) == Expand(items[n..], traitTypes, Items())
      {
        assert items[n..][1..] == items[n + 1..];
        match items[n]
        case TypeItem(name, hasParams, hasWhere) =>
          if !hasParams && !hasWhere { ParseType(name); } else { AppendNothing(Items()); }
        case FnItem(fn) =>
          if Dispatchable(fn.sig) {
            err := ParseMethod(fn);
            if err.Some? { return; }
          } else {
            AppendNothing(Items());
          }
        case OtherItem(_) => AppendNothing(Items());
      }
      NothingCarries();
      ExpandCarries(items, traitTypes, NOTHING, [], []);
      assert [] + PlainTypes(items) == PlainTypes(items) && [] + CallableFns(items) == CallableFns(items);
      err := None;
    }
  }

  lemma AppendNothing(g: Generated)
    ensures Append(g, NOTHING) == g
  {
  }

  /** `dyn_trait_impl`: `attrs` are the attributes to put on the generated trait, `None` being a
      `dyn_trait` attribute without an argument list. The original trait keeps its items and gets
      the extra ones. */
  method DynTraitImpl(hasGenerics: bool, traitTypes: seq<string>, attrs: seq<Option<Name>>, items: seq<Item>)
    returns (r: Result<Generated>)
    ensures None in attrs ==> r == Err(AttributeNotList)
    ensures None !in attrs && hasGenerics && AsksDynObject(attrs) ==> r == Err(GenericDynObject)
    ensures None !in attrs && !(hasGenerics && AsksDynObject(attrs)) ==> r == Expand(items, traitTypes, NOTHING)
    ensures r.Ok? ==> Carries(r.value, PlainTypes(items), CallableFns(items))
  {
    hide Carries, PlainTypes, CallableFns, Expand;
    var onDynObject := false;
    for n := 0 to |attrs|
      invariant forall i :: 0 <= i < n ==> attrs[i].Some?
      invariant onDynObject <==> exists i :: 0 <= i < n && LastIs(attrs[i], "dyn_object")
    {
      if attrs[n].None? { return Err(AttributeNotList); }
      onDynObject := onDynObject || LastIs(attrs[n], "dyn_object");
    }
    if hasGenerics && onDynObject { return Err(GenericDynObject); }
    var dynTrait := new DynTrait(traitTypes);
    var err := dynTrait.ParseItems(items);
    r := if err.Some? then Err(err.value) else Ok(dynTrait.Items());
  }

  predicate LastIs(name: Option<Name>, last: string) {
    name.Some? && |name.value| > 0 && name.value[|name.value| - 1] == last
  }

  /** The generated trait is to be a `dyn_object`. */
  predicate AsksDynObject(attrs: seq<Option<Name>>) {
    exists a :: a in attrs && a.Some? && |a.value| > 0 && a.value[|a.value| - 1] == "dyn_object"
  }
}
