/** What the item loop of `dyn_trait` guarantees for every trait it accepts. */
module DynTraitLaws {
  import opened Wrappers
  import opened Syntax
  import opened Patterns
  import opened Lifetimes
  import opened DynMethod
  import opened DynTraitMacro
  import DynObjectMacro
  import SyncShortcut

  // ----- which traits are accepted -----

  predicate HasOption(attrs: seq<Attr>, option: AttrOption) {
    exists i :: 0 <= i < |attrs| && attrs[i].DynTraitAttr? && option in attrs[i].options
  }

  predicate HasDynTraitAttr(attrs: seq<Attr>) {
    exists i :: 0 <= i < |attrs| && attrs[i].DynTraitAttr?
  }

  /** `maybe_sync` stands in an attribute of the method. */
  predicate IsMaybeSync(fn: Method) { HasOption(fn.attrs, MaybeSyncOption) }

  /** The attributes of a method are used as the macro demands: only on a method with an opaque
      return type, with known options, and `maybe_sync` only on a future with an `Output`. */
  predicate WellAttributed(fn: Method) {
    (HasDynTraitAttr(fn.attrs) ==> HasRpit(fn.sig)) && !HasOption(fn.attrs, UnknownOption)
    && (IsMaybeSync(fn) ==> Rpit(Prepared(fn.sig)).Some? && FutureOutput(Rpit(Prepared(fn.sig)).value).Some?)
  }

  lemma {:induction false} OptionsParse(options: seq<AttrOption>, attrs: MethodAttrs)
    ensures ParseOptions(options, attrs).Ok? <==> UnknownOption !in options
    ensures ParseOptions(options, attrs).Ok? ==>
      ParseOptions(options, attrs).value.maybeSync == (attrs.maybeSync || MaybeSyncOption in options)
    ensures ParseOptions(options, attrs).Err? ==> ParseOptions(options, attrs).error == UnknownAttribute
    decreases options
  {
    if options != [] {
      match options[0]
      case StorageOption(path) => OptionsParse(options[1..], attrs.(storage := Some(path)));
      case MaybeSyncOption => OptionsParse(options[1..], attrs.(maybeSync := true));
      case UnknownOption =>
    }
  }

  lemma {:induction false} AttrsParse(attrs: seq<Attr>, sig: Signature, acc: MethodAttrs)
    ensures ParseAttrs(attrs, sig, acc).Ok? <==>
      (HasDynTraitAttr(attrs) ==> HasRpit(sig)) && !HasOption(attrs, UnknownOption)
    ensures ParseAttrs(attrs, sig, acc).Ok? ==>
      ParseAttrs(attrs, sig, acc).value.maybeSync == (acc.maybeSync || HasOption(attrs, MaybeSyncOption))
    ensures ParseAttrs(attrs, sig, acc).Err? ==>
      ParseAttrs(attrs, sig, acc).error == if HasRpit(sig) then UnknownAttribute else NotOpaque(sig.name)
    decreases attrs
  {
    if attrs != [] {
      var first, rest := attrs[0], attrs[1..];
      Cons(first, rest);
      assert attrs == [first] + rest;
      if first.DynTraitAttr? {
        OptionsParse(first.options, acc);
        match ParseOptions(first.options, acc)
        case Ok(now) => AttrsParse(rest, sig, now);
        case Err(_) =>
      } else {
        AttrsParse(rest, sig, acc);
      }
    }
  }

  lemma Cons(first: Attr, rest: seq<Attr>)
    ensures HasDynTraitAttr([first] + rest) <==> first.DynTraitAttr? || HasDynTraitAttr(rest)
    ensures forall o :: HasOption([first] + rest, o) <==>
      (first.DynTraitAttr? && o in first.options) || HasOption(rest, o)
  {
    var all := [first] + rest;
    assert all[0] == first && forall i :: 0 <= i < |rest| ==> all[i + 1] == rest[i];
    assert HasDynTraitAttr(all) ==> first.DynTraitAttr? || HasDynTraitAttr(rest) by {
      if i :| 0 <= i < |all| && all[i].DynTraitAttr? { assert i > 0 ==> rest[i - 1] == all[i]; }
    }
    assert HasDynTraitAttr(rest) ==> HasDynTraitAttr(all) by {
      if i :| 0 <= i < |rest| && rest[i].DynTraitAttr? { assert all[i + 1].DynTraitAttr?; }
    }
    forall o ensures HasOption(all, o) <==> (first.DynTraitAttr? && o in first.options) || HasOption(rest, o) {
      if i :| 0 <= i < |all| && all[i].DynTraitAttr? && o in all[i].options { assert i > 0 ==> rest[i - 1] == all[i]; }
      if i :| 0 <= i < |rest| && rest[i].DynTraitAttr? && o in rest[i].options { assert all[i + 1].DynTraitAttr?; }
    }
  }

  lemma ItemAccepted(item: Item, traitTypes: seq<string>)
    ensures ItemItems(item, traitTypes).Ok? <==> (Kept(item) && item.FnItem? ==> WellAttributed(item.fn))
  {
    hide DynSig, Prepared, Rpit, FnArgs, FutureOutput, HasOption, HasDynTraitAttr;
    if item.FnItem? { AttrsParse(item.fn.attrs, item.fn.sig, NO_ATTRS); }
  }

  /** A trait is accepted exactly when every method that is kept is well attributed. */
  lemma {:induction false} AcceptedIff(items: seq<Item>, traitTypes: seq<string>, acc: Generated)
    ensures Expand(items, traitTypes, acc).Ok? <==>
      forall i :: 0 <= i < |items| && Kept(items[i]) && items[i].FnItem? ==> WellAttributed(items[i].fn)
    decreases items
  {
    hide ItemItems, Kept, WellAttributed;
    if items != [] {
      ItemAccepted(items[0], traitTypes);
      if ItemItems(items[0], traitTypes).Ok? {
        AcceptedIff(items[1..], traitTypes, Append(acc, ItemItems(items[0], traitTypes).value));
        assert forall i :: 0 < i < |items| ==> items[i] == items[1..][i - 1];
      }
    }
  }

  /** The error about a method that is not well attributed. */
  predicate Refused(fn: Method, e: Error) {
    if HasDynTraitAttr(fn.attrs) && !HasRpit(fn.sig) then e == NotOpaque(fn.sig.name)
    else if HasOption(fn.attrs, UnknownOption) then e == UnknownAttribute
    else IsMaybeSync(fn) && e == NotAsync(fn.sig.name)
  }

  lemma ItemRefused(item: Item, traitTypes: seq<string>)
    requires ItemItems(item, traitTypes).Err?
    ensures item.FnItem? && VtableCallable(item.fn.sig) && !WellAttributed(item.fn)
    ensures Refused(item.fn, ItemItems(item, traitTypes).error)
  {
    hide DynSig, Prepared, Rpit, FnArgs, FutureOutput, HasOption, HasDynTraitAttr, Dispatchable, VtableCallable;
    DispatchableIff(item.fn.sig);
    ItemAccepted(item, traitTypes);
    AttrsParse(item.fn.attrs, item.fn.sig, NO_ATTRS);
    OptionInAttr(item.fn.attrs, UnknownOption);
  }

  lemma OptionInAttr(attrs: seq<Attr>, option: AttrOption)
    ensures HasOption(attrs, option) ==> HasDynTraitAttr(attrs)
  {}

  /** The first method that is not well attributed, and the error about it. */
  predicate RefusedAt(fns: seq<Method>, n: nat, e: Error) {
    n < |fns| && !WellAttributed(fns[n]) && Refused(fns[n], e) && forall k :: 0 <= k < n ==> WellAttributed(fns[k])
  }

  lemma RefusedLater(first: seq<Method>, rest: seq<Method>, n: nat, e: Error)
    requires RefusedAt(rest, n, e) && forall fn :: fn in first ==> WellAttributed(fn)
    ensures RefusedAt(first + rest, |first| + n, e)
  {
    hide WellAttributed, Refused;
    var fns := first + rest;
    assert (forall k :: 0 <= k < |first| ==> fns[k] == first[k])
      && forall k :: 0 <= k < |rest| ==> fns[|first| + k] == rest[k];
    forall k | |first| <= k < |first| + n ensures WellAttributed(fns[k]) { assert fns[k] == rest[k - |first|]; }
  }

  /** A trait that is not accepted is refused for its first method that is not well attributed. */
  lemma {:induction false} FirstRefused(items: seq<Item>, traitTypes: seq<string>, acc: Generated)
    requires Expand(items, traitTypes, acc).Err?
    ensures exists n: nat :: RefusedAt(CallableFns(items), n, Expand(items, traitTypes, acc).error)
    decreases items
  {
    hide ItemItems, WellAttributed, Refused, VtableCallable, RefusedAt;
    var rest, e := CallableFns(items[1..]), Expand(items, traitTypes, acc).error;
    if ItemItems(items[0], traitTypes).Err? {
      ItemRefused(items[0], traitTypes);
      RefusedHere([items[0].fn] + rest, e);
      assert CallableFns(items) == [items[0].fn] + rest;
    } else {
      FirstRefused(items[1..], traitTypes, Append(acc, ItemItems(items[0], traitTypes).value));
      var n: nat :| RefusedAt(rest, n, e);
      AcceptedFirst(items[0], traitTypes);
      var first := if items[0].FnItem? && VtableCallable(items[0].fn.sig) then [items[0].fn] else [];
      RefusedLater(first, rest, n, e);
      assert CallableFns(items) == first + rest;
    }
  }

  lemma RefusedHere(fns: seq<Method>, e: Error)
    requires fns != [] && !WellAttributed(fns[0]) && Refused(fns[0], e)
    ensures RefusedAt(fns, 0, e)
  {}

  lemma AcceptedFirst(item: Item, traitTypes: seq<string>)
    requires ItemItems(item, traitTypes).Ok?
    ensures item.FnItem? && VtableCallable(item.fn.sig) ==> WellAttributed(item.fn)
  {
    hide ItemItems, WellAttributed, Dispatchable, VtableCallable;
    if item.FnItem? { DispatchableIff(item.fn.sig); }
    ItemAccepted(item, traitTypes);
  }

  // ----- the storage a method asks for -----

  /** The options of all its attributes, in order. */
  function AllOptions(attrs: seq<Attr>): seq<AttrOption> {
    if attrs == [] then []
    else (match attrs[0] case DynTraitAttr(options) => options case OtherAttr(_) => []) + AllOptions(attrs[1..])
  }

  /** `storage` is the last one asked for, `before` if there is none. */
  predicate LastStorage(options: seq<AttrOption>, before: Option<string>, storage: Option<string>) {
    if forall k :: 0 <= k < |options| ==> !options[k].StorageOption? then storage == before
    else exists k :: 0 <= k < |options| && options[k].StorageOption? && storage == Some(options[k].path)
                     && forall j :: k < j < |options| ==> !options[j].StorageOption?
  }

  lemma LastOfBoth(a: seq<AttrOption>, b: seq<AttrOption>, x: Option<string>, y: Option<string>, z: Option<string>)
    requires LastStorage(a, x, y) && LastStorage(b, y, z)
    ensures LastStorage(a + b, x, z)
  {
    var all := a + b;
    assert (forall k :: 0 <= k < |a| ==> all[k] == a[k]) && forall k :: 0 <= k < |b| ==> all[|a| + k] == b[k];
    if k :| 0 <= k < |b| && b[k].StorageOption? && z == Some(b[k].path)
            && forall j :: k < j < |b| ==> !b[j].StorageOption? {
      assert all[|a| + k].StorageOption?;
      assert forall j :: |a| + k < j < |all| ==> all[j] == b[j - |a|];
    } else if k :| 0 <= k < |a| && a[k].StorageOption? && z == Some(a[k].path)
                   && forall j :: k < j < |a| ==> !a[j].StorageOption? {
      assert all[k].StorageOption?;
      assert forall j :: |a| <= j < |all| ==> all[j] == b[j - |a|];
    } else {
      assert forall j :: |a| <= j < |all| ==> all[j] == b[j - |a|];
    }
  }

  lemma {:induction false} OptionsStorage(options: seq<AttrOption>, attrs: MethodAttrs)
    requires ParseOptions(options, attrs).Ok?
    ensures LastStorage(options, attrs.storage, ParseOptions(options, attrs).value.storage)
    decreases options
  {
    hide LastStorage;
    if options == [] {
      NoOptions(attrs.storage);
    } else {
      var first, rest := [options[0]], options[1..];
      assert options == first + rest;
      var now := match options[0]
                 case StorageOption(path) => attrs.(storage := Some(path))
                 case MaybeSyncOption => attrs.(maybeSync := true)
                 case UnknownOption => attrs;
      OneOption(options[0], attrs.storage, now.storage);
      OptionsStorage(rest, now);
      LastOfBoth(first, rest, attrs.storage, now.storage, ParseOptions(options, attrs).value.storage);
    }
  }

  lemma NoOptions(storage: Option<string>)
    ensures LastStorage([], storage, storage)
  {}

  lemma OneOption(option: AttrOption, before: Option<string>, now: Option<string>)
    requires now == if option.StorageOption? then Some(option.path) else before
    ensures LastStorage([option], before, now)
  {
    assert [option][0] == option;
  }

  lemma {:induction false} AttrsStorage(attrs: seq<Attr>, sig: Signature, acc: MethodAttrs)
    requires ParseAttrs(attrs, sig, acc).Ok?
    ensures LastStorage(AllOptions(attrs), acc.storage, ParseAttrs(attrs, sig, acc).value.storage)
    decreases attrs
  {
    hide LastStorage, ParseOptions;
    if attrs == [] {
      NoOptions(acc.storage);
    } else {
      match attrs[0]
      case OtherAttr(_) =>
        AttrsStorage(attrs[1..], sig, acc);
        assert AllOptions(attrs) == AllOptions(attrs[1..]);
      case DynTraitAttr(options) =>
        var now := ParseOptions(options, acc).value;
        OptionsStorage(options, acc);
        AttrsStorage(attrs[1..], sig, now);
        LastOfBoth(options, AllOptions(attrs[1..]), acc.storage, now.storage,
                   ParseAttrs(attrs, sig, acc).value.storage);
    }
  }

  /** The storage parameter of a method has the last storage its attributes ask for as its default, and
      the library's default without any. */
  lemma StoragePath(fn: Method, traitTypes: seq<string>)
    requires VtableCallable(fn.sig) && ItemItems(FnItem(fn), traitTypes).Ok?
    ensures var params := ItemItems(FnItem(fn), traitTypes).value.storages;
      if HasRpit(fn.sig) then |params| == 1 && LastStorage(AllOptions(fn.attrs), None, params[0].path) else params == []
  {
    hide DynSig, Prepared, FnArgs, FutureOutput, LastStorage, ParseAttrs, Dispatchable, VtableCallable, Rpit, HasRpit;
    DispatchableIff(fn.sig);
    Desugars(fn.sig);
    AttrsStorage(fn.attrs, fn.sig, NO_ATTRS);
  }

  // ----- the generated items -----

  function DynName(d: DynItem): string {
    match d
    case DynType(name) => name
    case DynFn(sig) => sig.name
  }

  function ImplName(d: ImplItem): string {
    match d
    case ImplType(name) => name
    case ImplFn(sig, _) => sig.name
  }

  function DynNames(items: seq<DynItem>): (r: seq<string>)
    ensures |r| == |items|
  {
    seq(|items|, i requires 0 <= i < |items| => DynName(items[i]))
  }

  function ImplNames(items: seq<ImplItem>): (r: seq<string>)
    ensures |r| == |items|
  {
    seq(|items|, i requires 0 <= i < |items| => ImplName(items[i]))
  }

  function ExtraNames(items: seq<ExtraItem>): (r: seq<string>)
    ensures |r| == |items|
  {
    seq(|items|, i requires 0 <= i < |items| => if items[i].SyncFn? then items[i].sig.name else items[i].name)
  }

  function NameOf(item: Item): string {
    match item
    case TypeItem(name, _, _) => name
    case FnItem(fn) => fn.sig.name
    case OtherItem(name) => name
  }

  /** The non-generic associated types and the dispatchable methods, in order. */
  function KeptNames(items: seq<Item>): seq<string> {
    if items == [] then [] else (if Kept(items[0]) then [NameOf(items[0])] else []) + KeptNames(items[1..])
  }

  function ItemStorages(item: Item): seq<string> {
    if Kept(item) && item.FnItem? && HasRpit(item.fn.sig) then [StorageName(item.fn.sig.name)] else []
  }

  /** One storage per kept method with an opaque return type. */
  function KeptStorages(items: seq<Item>): seq<string> {
    if items == [] then [] else ItemStorages(items[0]) + KeptStorages(items[1..])
  }

  function ItemExtras(item: Item): seq<string> {
    if Kept(item) && item.FnItem? && IsMaybeSync(item.fn) then
      [SyncShortcut.SyncFn(item.fn.sig.name), SyncShortcut.IsSyncConst(item.fn.sig.name)]
    else []
  }

  /** Two hidden items per kept `maybe_sync` method. */
  function KeptExtras(items: seq<Item>): seq<string> {
    if items == [] then [] else ItemExtras(items[0]) + KeptExtras(items[1..])
  }

  /** The implementation has the items of the trait, with the same signatures. */
  predicate Conforms(g: Generated) {
    |g.dynItems| == |g.implItems|
    && forall i :: 0 <= i < |g.dynItems| ==>
      match g.dynItems[i]
      case DynType(name) => g.implItems[i] == ImplType(name)
      case DynFn(sig) => g.implItems[i].ImplFn? && g.implItems[i].sig == sig
  }

  /** What a trait object asks of the shape of a method. */
  predicate DynShaped(sig: Signature) {
    VtableCallable(sig) && !sig.isAsync && !sig.output.Opaque?
  }

  predicate AllDynShaped(g: Generated) {
    forall i :: 0 <= i < |g.dynItems| && g.dynItems[i].DynFn? ==> DynShaped(g.dynItems[i].sig)
  }

  /** A method a trait object can have: it has that shape, and names `Self` in its receiver only, or as
      `Self::A` for one of the associated types. */
  predicate DynCompatible(sig: Signature, types: seq<string>) {
    DynShaped(sig) && !DynObjectMacro.NamesSelf(sig, types)
  }

  predicate AllDynCompatible(g: Generated, types: seq<string>) {
    forall i :: 0 <= i < |g.dynItems| && g.dynItems[i].DynFn? ==> DynCompatible(g.dynItems[i].sig, types)
  }

  /** No kept method names `Self` elsewhere. */
  predicate KeptCompatible(items: seq<Item>, types: seq<string>) {
    forall i :: 0 <= i < |items| ==> ItemCompatible(items[i], types)
  }

  predicate ItemCompatible(item: Item, types: seq<string>) {
    Kept(item) && item.FnItem? ==> !DynObjectMacro.NamesSelf(item.fn.sig, types)
  }

  // ----- `Self` in a generated signature -----

  predicate AnyBare(tys: seq<Ty>, types: seq<string>) {
    exists i :: 0 <= i < |tys| && DynObjectMacro.BareSelf(tys[i], types)
  }

  function RewriteAll(tys: seq<Ty>, captured: set<Lt>): (r: seq<Ty>)
    ensures |r| == |tys|
  {
    seq(|tys|, i requires 0 <= i < |tys| => Rewrite(tys[i], captured))
  }

  /** Rewriting lifetimes neither adds nor removes a `Self`. */
  lemma {:induction false} BareRewrite(ty: Ty, captured: set<Lt>, types: seq<string>)
    ensures DynObjectMacro.BareSelf(Rewrite(ty, captured), types) <==> DynObjectMacro.BareSelf(ty, types)
    decreases ty
  {
    var now := Rewrite(ty, captured);
    match ty
    case Path(_, _, _, args, _) =>
      forall i | 0 <= i < |args|
        ensures DynObjectMacro.BareSelf(now.args[i], types) <==> DynObjectMacro.BareSelf(args[i], types)
      {
        BareRewrite(args[i], captured, types);
      }
    case Ref(_, _, to) => BareRewrite(to, captured, types);
    case Fn(params, ret) =>
      forall i | 0 <= i < |params|
        ensures DynObjectMacro.BareSelf(now.params[i], types) <==> DynObjectMacro.BareSelf(params[i], types)
      {
        BareRewrite(params[i], captured, types);
      }
      BareRewrite(ret, captured, types);
  }

  lemma BareAll(tys: seq<Ty>, captured: set<Lt>, types: seq<string>)
    ensures AnyBare(RewriteAll(tys, captured), types) <==> AnyBare(tys, types)
  {
    forall i | 0 <= i < |tys|
      ensures DynObjectMacro.BareSelf(RewriteAll(tys, captured)[i], types) <==> DynObjectMacro.BareSelf(tys[i], types)
    {
      BareRewrite(tys[i], captured, types);
    }
  }

  lemma {:induction false} ParamsRewritten(inputs: seq<Arg>, captured: set<Lt>)
    ensures DynObjectMacro.ParamTys(RewriteInputs(inputs, captured)) ==
      RewriteAll(DynObjectMacro.ParamTys(inputs), captured)
    decreases inputs
  {
    if inputs != [] {
      ParamsRewritten(inputs[1..], captured);
      assert RewriteInputs(inputs, captured)[1..] == RewriteInputs(inputs[1..], captured);
    }
  }

  lemma {:induction false} ParamsCleared(inputs: seq<Arg>)
    ensures DynObjectMacro.ParamTys(ClearInputs(inputs)) == DynObjectMacro.ParamTys(inputs)
    decreases inputs
  {
    if inputs != [] {
      ParamsCleared(inputs[1..]);
      assert ClearInputs(inputs)[1..] == ClearInputs(inputs[1..]);
    }
  }

  lemma RewriteBoth(a: seq<Ty>, b: seq<Ty>, captured: set<Lt>)
    ensures RewriteAll(a + b, captured) == RewriteAll(a, captured) + RewriteAll(b, captured)
  {}

  function BoundTys(b: Bound): seq<Ty>
    requires b.TraitBound?
  {
    [b.ty] + BindingTys(b.bindings)
  }

  lemma BoundRewritten(b: Bound, captured: set<Lt>)
    requires b.TraitBound?
    ensures BoundTys(RewriteBound(b, captured)) == RewriteAll(BoundTys(b), captured)
  {
    hide Rewrite;
  }

  lemma {:induction false} BoundsRewritten(bounds: seq<Bound>, captured: set<Lt>)
    ensures TraitTys(DynBounds(bounds, captured)) == RewriteAll(TraitTys(bounds), captured)
    decreases bounds
  {
    hide RewriteAll, RewriteBound, BindingTys;
    var now := DynBounds(bounds, captured);
    if bounds == [] {
      assert now[1..] == [];
      assert RewriteAll([], captured) == [];
    } else {
      BoundsRewritten(bounds[1..], captured);
      if bounds[0].TraitBound? {
        assert now[0] == RewriteBound(bounds[0], captured) && now[1..] == DynBounds(bounds[1..], captured);
        BoundRewritten(bounds[0], captured);
        RewriteBoth(BoundTys(bounds[0]), TraitTys(bounds[1..]), captured);
        assert TraitTys(now) == BoundTys(now[0]) + TraitTys(now[1..]);
      } else {
        assert now == DynBounds(bounds[1..], captured);
        assert TraitTys(bounds) == TraitTys(bounds[1..]);
      }
    }
  }

  lemma NamesSelfIff(sig: Signature, types: seq<string>)
    ensures DynObjectMacro.NamesSelf(sig, types) <==>
      AnyBare(DynObjectMacro.ParamTys(sig.inputs), types)
      || (!sig.output.Unit? && DynObjectMacro.BareSelf(OutputTy(sig.output), types))
  {
    hide DynObjectMacro.BareSelf;
    var tys := DynObjectMacro.ParamTys(sig.inputs);
    forall i | 0 <= i < |tys| && DynObjectMacro.BareSelf(tys[i], types) ensures tys[i] in tys {}
  }

  /** The output of a generated method names `Self` exactly when that of the original does. */
  lemma OutputBare(bounds: seq<Bound>, types: seq<string>)
    ensures DynObjectMacro.BareSelf(OutputTy(Opaque(bounds)), types) <==> AnyBare(TraitTys(bounds), types)
    ensures forall s ::
      DynObjectMacro.BareSelf(OutputTy(DynObj(bounds, s)), types) <==> AnyBare(TraitTys(bounds), types)
    ensures forall s ::
      DynObjectMacro.BareSelf(OutputTy(MaybeSyncObj(bounds, s)), types) <==> AnyBare(TraitTys(bounds), types)
  {}

  lemma FutureBare(sig: Signature, types: seq<string>)
    requires sig.isAsync
    ensures Prepared(sig).output.Opaque?
    ensures AnyBare(TraitTys(Prepared(sig).output.bounds), types) <==>
      !sig.output.Unit? && DynObjectMacro.BareSelf(OutputTy(sig.output), types)
  {
    var bounds := Prepared(sig).output.bounds;
    assert bounds[1..] == [] && TraitTys(bounds[1..]) == [];
    var tys := TraitTys(bounds);
    assert tys == [FUTURE_TY, OutputTy(sig.output)];
    assert !DynObjectMacro.BareSelf(tys[0], types) && tys[1] == OutputTy(sig.output);
  }

  /** A generated method names `Self` exactly when the original one does. */
  lemma SelfKept(sig: Signature, traitTypes: seq<string>, types: seq<string>)
    ensures DynObjectMacro.NamesSelf(DynSig(sig, traitTypes), types) <==> DynObjectMacro.NamesSelf(sig, types)
    ensures var maybe := DynSig(sig, traitTypes).(output := MaybeSyncOutput(DynSig(sig, traitTypes).output));
      DynObjectMacro.NamesSelf(maybe, types) <==> DynObjectMacro.NamesSelf(sig, types)
  {
    hide DynObjectMacro.BareSelf, DynObjectMacro.NamesSelf, AnyBare, Captured, DynBounds, OutputTy, TraitTys,
         DynObjectMacro.ParamTys, RewriteInputs, ClearInputs;
    var p, now := Prepared(sig), DynSig(sig, traitTypes);
    NamesSelfIff(sig, types);
    NamesSelfIff(now, types);
    NamesSelfIff(now.(output := MaybeSyncOutput(now.output)), types);
    if now.output.DynObj? { OutputBare(now.output.bounds, types); }
    ParamsCleared(sig.inputs);
    if p.output.Opaque? {
      var bounds, captured := p.output.bounds, Captured(p.output.bounds, p.generics);
      ParamsRewritten(p.inputs, captured);
      BareAll(DynObjectMacro.ParamTys(p.inputs), captured, types);
      BoundsRewritten(bounds, captured);
      BareAll(TraitTys(bounds), captured, types);
      OutputBare(bounds, types);
      if sig.isAsync { FutureBare(sig, types); }
    }
  }

  lemma StillDispatchable(sig: Signature, traitTypes: seq<string>)
    requires Dispatchable(sig)
    ensures Dispatchable(DynSig(sig, traitTypes))
    ensures forall o :: Dispatchable(DynSig(sig, traitTypes).(output := o))
  {
    hide PinnedRef, Rewrite, Captured;
    var p, now := Prepared(sig), DynSig(sig, traitTypes);
    assert p.inputs[0] == sig.inputs[0] && p.generics == sig.generics;
    if p.output.Opaque? {
      var captured := Captured(p.output.bounds, p.generics);
      assert now.inputs[0] == RewriteArg(p.inputs[0], captured);
      StillPinned(p.inputs[0].ty, captured);
      assert forall i :: 0 <= i < |p.generics| ==> now.generics[i + 1] == DynGeneric(p.generics[i], captured);
    }
  }

  lemma StillPinned(ty: Ty, captured: set<Lt>)
    ensures PinnedRef(ty).Some? ==> PinnedRef(Rewrite(ty, captured)).Some?
  {
    if PinnedRef(ty).Some? {
      assert Rewrite(SELF_TY, captured) == SELF_TY;
      assert Rewrite(ty, captured).lts == [] && Rewrite(ty, captured).args[0] == Rewrite(ty.args[0], captured);
    }
  }

  lemma ItemLaws(item: Item, traitTypes: seq<string>, types: seq<string>)
    requires ItemItems(item, traitTypes).Ok?
    ensures var g := ItemItems(item, traitTypes).value;
      DynNames(g.dynItems) == (if Kept(item) then [NameOf(item)] else [])
      && Conforms(g) && AllDynShaped(g) && (AllDynCompatible(g, types) <==> ItemCompatible(item, types))
      && StorageNames(g.storages) == ItemStorages(item) && ExtraNames(g.extras) == ItemExtras(item)
  {
    hide Prepared, FnArgs, FutureOutput, HasOption, HasDynTraitAttr, Dispatchable, VtableCallable,
         DynSig, DynObjectMacro.NamesSelf;
    if Kept(item) && item.FnItem? {
      var sig := item.fn.sig;
      AttrsParse(item.fn.attrs, sig, NO_ATTRS);
      RewrittenIff(sig, traitTypes);
      Desugars(sig);
      StillDispatchable(sig, traitTypes);
      DispatchableIff(DynSig(sig, traitTypes));
      AnyOutput(DynSig(sig, traitTypes), MaybeSyncOutput(DynSig(sig, traitTypes).output));
      SelfKept(sig, traitTypes, types);
      var g := ItemItems(item, traitTypes).value;
      OneMethod(g, types);
    }
  }

  lemma AnyOutput(sig: Signature, o: Output)
    ensures VtableCallable(sig.(output := o)) <==> VtableCallable(sig)
  {}

  lemma OneMethod(g: Generated, types: seq<string>)
    requires |g.dynItems| == 1 && g.dynItems[0].DynFn?
    ensures AllDynCompatible(g, types) <==> DynCompatible(g.dynItems[0].sig, types)
  {}

  lemma Desugars(sig: Signature)
    ensures Rpit(Prepared(sig)).Some? <==> HasRpit(sig)
  {
  }

  lemma Both(a: Generated, b: Generated)
    ensures DynNames(Append(a, b).dynItems) == DynNames(a.dynItems) + DynNames(b.dynItems)
    ensures StorageNames(Append(a, b).storages) == StorageNames(a.storages) + StorageNames(b.storages)
    ensures ExtraNames(Append(a, b).extras) == ExtraNames(a.extras) + ExtraNames(b.extras)
    ensures Conforms(a) && Conforms(b) ==> Conforms(Append(a, b))
    ensures AllDynShaped(a) && AllDynShaped(b) ==> AllDynShaped(Append(a, b))
  {
    hide DynShaped;
  }

  lemma BothCompatible(a: Generated, b: Generated, types: seq<string>)
    ensures AllDynCompatible(Append(a, b), types) <==> AllDynCompatible(a, types) && AllDynCompatible(b, types)
  {
    hide DynCompatible;
    var all := Append(a, b).dynItems;
    assert (forall i :: 0 <= i < |a.dynItems| ==> all[i] == a.dynItems[i])
      && forall i :: 0 <= i < |b.dynItems| ==> all[|a.dynItems| + i] == b.dynItems[i];
  }

  /** The generated trait and its implementation list the kept items, under the same names and in
      the same order, with equal signatures; a trait object can have them all exactly when no kept method
      names `Self` outside its receiver. There is one storage parameter per method with an opaque
      return type and two hidden items per `maybe_sync` one. */
  lemma {:induction false} Corresponds(items: seq<Item>, traitTypes: seq<string>, types: seq<string>, acc: Generated)
    requires Expand(items, traitTypes, acc).Ok? && Conforms(acc) && AllDynShaped(acc)
    ensures var g := Expand(items, traitTypes, acc).value;
      DynNames(g.dynItems) == DynNames(acc.dynItems) + KeptNames(items)
      && Conforms(g) && AllDynShaped(g)
      && (AllDynCompatible(g, types) <==> AllDynCompatible(acc, types) && KeptCompatible(items, types))
      && StorageNames(g.storages) == StorageNames(acc.storages) + KeptStorages(items)
      && ExtraNames(g.extras) == ExtraNames(acc.extras) + KeptExtras(items)
    decreases items
  {
    hide ItemItems, Kept, Conforms, AllDynCompatible, AllDynShaped, ItemStorages, ItemExtras, DynNames, StorageNames,
         ExtraNames, Append, ItemCompatible, KeptCompatible;
    if items == [] {
      NoneKept(types);
    } else {
      var g := ItemItems(items[0], traitTypes).value;
      ItemLaws(items[0], traitTypes, types);
      Both(acc, g);
      BothCompatible(acc, g, types);
      Corresponds(items[1..], traitTypes, types, Append(acc, g));
      KeptFirst(items, types);
      Assoc(DynNames(acc.dynItems), DynNames(g.dynItems), KeptNames(items[1..]));
      Assoc(StorageNames(acc.storages), StorageNames(g.storages), KeptStorages(items[1..]));
      Assoc(ExtraNames(acc.extras), ExtraNames(g.extras), KeptExtras(items[1..]));
    }
  }

  lemma NoneKept(types: seq<string>)
    ensures KeptCompatible([], types)
  {}

  lemma KeptFirst(items: seq<Item>, types: seq<string>)
    requires items != []
    ensures KeptCompatible(items, types) <==> ItemCompatible(items[0], types) && KeptCompatible(items[1..], types)
  {
    hide ItemCompatible;
    assert forall i :: 0 < i < |items| ==> items[i] == items[1..][i - 1];
  }

  lemma ConformingNames(g: Generated)
    requires Conforms(g)
    ensures DynNames(g.dynItems) == ImplNames(g.implItems)
  {
  }

  lemma {:induction false} Counts(items: seq<Item>)
    ensures |KeptStorages(items)| == CountRpit(items) && |KeptExtras(items)| == 2 * CountMaybeSync(items)
    decreases items
  {
    if items != [] { Counts(items[1..]); }
  }

  function CountRpit(items: seq<Item>): nat {
    if items == [] then 0
    else CountRpit(items[1..]) + if Kept(items[0]) && items[0].FnItem? && HasRpit(items[0].fn.sig) then 1 else 0
  }

  function CountMaybeSync(items: seq<Item>): nat {
    if items == [] then 0
    else CountMaybeSync(items[1..]) + if Kept(items[0]) && items[0].FnItem? && IsMaybeSync(items[0].fn) then 1 else 0
  }

  // ----- the hidden methods -----

  /** `ty` is the `Output` of the future that the method is declared to return. */
  predicate FutureValue(sig: Signature, ty: Ty) {
    if sig.isAsync then
      match sig.output
      case Unit => ty == Path(["()"], [], Co, [], Co)
      case Plain(declared) => ty == declared
      case _ => ty == OutputTy(sig.output)
    else sig.output.Opaque? && DeclaresOutput(sig.output.bounds, ty)
  }

  /** The synchronous method added for `fn`: the same parameters, returning what the future would. */
  predicate Hides(sync: Signature, fn: Method) {
    sync.name == SyncShortcut.SyncFn(fn.sig.name) && !sync.isAsync && sync.inputs == fn.sig.inputs
    && sync.generics == fn.sig.generics && sync.preds == fn.sig.preds
    && sync.output.Plain? && FutureValue(fn.sig, sync.output.ty)
  }

  function SyncSigOf(extra: ExtraItem): seq<Signature> { if extra.SyncFn? then [extra.sig] else [] }

  function MaybeSyncOf(fn: Method): seq<Method> { if IsMaybeSync(fn) then [fn] else [] }

  function SyncSigs(extras: seq<ExtraItem>): seq<Signature> { Flat(SyncSigOf, extras) }

  function MaybeSyncFns(fns: seq<Method>): seq<Method> { Flat(MaybeSyncOf, fns) }

  /** One hidden method per `maybe_sync` method, in order. */
  predicate AllHidden(extras: seq<ExtraItem>, fns: seq<Method>) {
    |SyncSigs(extras)| == |MaybeSyncFns(fns)|
    && forall k :: 0 <= k < |SyncSigs(extras)| ==> Hides(SyncSigs(extras)[k], MaybeSyncFns(fns)[k])
  }

  lemma HiddenBoth(a: seq<ExtraItem>, b: seq<ExtraItem>, fns: seq<Method>, fns': seq<Method>)
    requires AllHidden(a, fns) && AllHidden(b, fns')
    ensures AllHidden(a + b, fns + fns')
  {
    hide Hides, Flat, IsMaybeSync;
    FlatBoth(SyncSigOf, a, b);
    FlatBoth(MaybeSyncOf, fns, fns');
  }

  lemma OneHidden(sig: Signature, name: string, fn: Method)
    requires IsMaybeSync(fn) && Hides(sig, fn)
    ensures AllHidden([SyncFn(sig), IsSyncConst(name)], [fn])
  {
    hide Flat, Hides;
    assert [SyncFn(sig), IsSyncConst(name)] == [SyncFn(sig)] + [IsSyncConst(name)];
    FlatBoth(SyncSigOf, [SyncFn(sig)], [IsSyncConst(name)]);
    FlatOne(SyncSigOf, SyncFn(sig));
    FlatOne(SyncSigOf, IsSyncConst(name));
    FlatOne(MaybeSyncOf, fn);
  }

  lemma NoneHidden(fn: Method)
    requires !IsMaybeSync(fn)
    ensures AllHidden([], [fn]) && AllHidden([], [])
  {
    FlatOne(MaybeSyncOf, fn);
  }

  /** A `maybe_sync` method gets a hidden one. */
  lemma FnHidden(fn: Method, traitTypes: seq<string>)
    requires VtableCallable(fn.sig) && ItemItems(FnItem(fn), traitTypes).Ok?
    ensures AllHidden(ItemItems(FnItem(fn), traitTypes).value.extras, [fn])
  {
    hide DynSig, FnArgs, Dispatchable, VtableCallable, HasOption, HasDynTraitAttr, ParseAttrs, FutureOutput, AllHidden,
         DeclaresOutput;
    DispatchableIff(fn.sig);
    AttrsParse(fn.attrs, fn.sig, NO_ATTRS);
    if IsMaybeSync(fn) {
      var output := FutureOutput(Rpit(Prepared(fn.sig)).value).value;
      if fn.sig.isAsync { AsyncIsFuture(fn.sig); } else { FutureOutputIff(fn.sig.output.bounds, output); }
      var sync := fn.sig.(isAsync := false, name := SyncShortcut.SyncFn(fn.sig.name), output := Plain(output));
      OneHidden(sync, SyncShortcut.IsSyncConst(fn.sig.name), fn);
    } else {
      NoneHidden(fn);
    }
  }

  lemma ItemHidden(item: Item, traitTypes: seq<string>)
    requires ItemItems(item, traitTypes).Ok?
    ensures AllHidden(ItemItems(item, traitTypes).value.extras, CallableOf(item))
  {
    hide VtableCallable, Dispatchable, ParseAttrs, MethodItems, AllHidden;
    NothingHidden();
    if item.FnItem? {
      DispatchableIff(item.fn.sig);
      if VtableCallable(item.fn.sig) { FnHidden(item.fn, traitTypes); }
    }
  }

  lemma {:induction false} ExpandHides(items: seq<Item>, traitTypes: seq<string>, acc: Generated, fns: seq<Method>)
    requires Expand(items, traitTypes, acc).Ok? && AllHidden(acc.extras, fns)
    ensures AllHidden(Expand(items, traitTypes, acc).value.extras, fns + CallableFns(items))
    decreases items
  {
    hide AllHidden, ItemItems, CallableOf;
    if items == [] {
      assert fns + [] == fns;
    } else {
      var g, fns' := ItemItems(items[0], traitTypes).value, CallableOf(items[0]);
      ItemHidden(items[0], traitTypes);
      HiddenBoth(acc.extras, g.extras, fns, fns');
      ExpandHides(items[1..], traitTypes, Append(acc, g), fns + fns');
      Assoc(fns, fns', CallableFns(items[1..]));
    }
  }

  lemma NothingHidden()
    ensures AllHidden([], [])
  {}

  /** The item-loop correspondence, for every trait the macro accepts. */
  lemma ItemLoop(items: seq<Item>, traitTypes: seq<string>, types: seq<string>)
    requires Expand(items, traitTypes, NOTHING).Ok?
    ensures var g := Expand(items, traitTypes, NOTHING).value;
      DynNames(g.dynItems) == KeptNames(items) && ImplNames(g.implItems) == KeptNames(items)
      && Conforms(g) && AllDynShaped(g) && (AllDynCompatible(g, types) <==> KeptCompatible(items, types))
      && StorageNames(g.storages) == KeptStorages(items) && |g.storages| == CountRpit(items)
      && ExtraNames(g.extras) == KeptExtras(items) && |g.extras| == 2 * CountMaybeSync(items)
    ensures var g := Expand(items, traitTypes, NOTHING).value;
      Carries(g, PlainTypes(items), CallableFns(items)) && AllHidden(g.extras, CallableFns(items))
  {
    hide Kept, ItemItems, DynCompatible, ItemCompatible, Carries, AllHidden, PlainTypes, CallableFns;
    NothingCarries();
    NothingHidden();
    ExpandCarries(items, traitTypes, NOTHING, [], []);
    ExpandHides(items, traitTypes, NOTHING, []);
    assert [] + PlainTypes(items) == PlainTypes(items) && [] + CallableFns(items) == CallableFns(items);
    assert DynNames(NOTHING.dynItems) == [] && StorageNames(NOTHING.storages) == [] && ExtraNames(NOTHING.extras) == [];
    Corresponds(items, traitTypes, types, NOTHING);
    ConformingNames(Expand(items, traitTypes, NOTHING).value);
    Counts(items);
  }
}
