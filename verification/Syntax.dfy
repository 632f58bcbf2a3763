/** The fragment of Rust's trait syntax that the `dyn_trait` and `dyn_object` macros read. */
module Syntax {
  import opened Wrappers

  /** A path of identifiers: `Self`, `Self::Item`, `Vec`. */
  type Name = seq<string>

  const SELF: Name := ["Self"]

  /** A lifetime as written: `Absent` is an omitted one, `Underscore` is `'_`, `Dyn` is `'__dyn`. */
  datatype Lt = Absent | Underscore | Named(name: string) | Dyn

  predicate Elided(l: Lt) { l.Absent? || l.Underscore? }

  /** How a type constructor uses one of its arguments. */
  datatype Variance = Co | Contra | Inv

  /** Types. A `Path` is a type constructor with its lifetime and type arguments and the variance
      of each. An `Absent` lifetime of a path is a hidden one (`Context` for `Context<'_>`). `Fn`
      covers `fn(A) -> B` and `Fn(A) -> B`, which bind their own elided lifetimes. */
  datatype Ty =
    | Path(name: Name, lts: seq<Lt>, ltVar: Variance, args: seq<Ty>, argVar: Variance)
    | Ref(lt: Lt, mut: bool, to: Ty)
    | Fn(params: seq<Ty>, ret: Ty)

  const SELF_TY: Ty := Path(SELF, [], Co, [], Co)

  /** Parameter patterns. `Bind` is `ref? mut? name (@ sub)?`. */
  datatype Pat =
    | Bind(byRef: bool, mut: bool, name: string, sub: Option<Pat>)
    | Wild
    | Tuple(pats: seq<Pat>)

  /** `Receiver` is `&'lt mut? self` when `lt` is given and `self: ty` otherwise. */
  datatype Arg =
    | Receiver(lt: Option<Lt>, mut: bool, ty: Ty)
    | Typed(pat: Pat, ty: Ty)

  function ArgTy(a: Arg): Ty {
    match a
    case Receiver(Some(lt), mut, _) => Ref(lt, mut, SELF_TY)
    case _ => a.ty
  }

  /** The pinned reference of a `Pin<&'lt mut? Self>`. */
  function PinnedRef(ty: Ty): Option<Ty> {
    if ty.Path? && |ty.name| > 0 && ty.name[|ty.name| - 1] == "Pin" && ty.lts == [] && |ty.args| > 0
       && ty.args[0].Ref? && ty.args[0].to == SELF_TY
    then Some(ty.args[0])
    else None
  }

  datatype Generic =
    | LtParam(lt: Lt, bounds: seq<Lt>)
    | TyParam(name: string)
    | ConstParam(name: string)

  /** A captured parameter of `use<..>`. */
  datatype Capture = CapLt(lt: Lt) | CapTy(name: string)

  /** An associated type binding, `Output = ty`. */
  datatype Binding = Binding(name: string, ty: Ty)

  /** A bound of an `impl Trait`: a trait with its bindings, a lifetime, or `use<..>`. */
  datatype Bound =
    | TraitBound(ty: Ty, bindings: seq<Binding>)
    | LtBound(lt: Lt)
    | Precise(captures: seq<Capture>)

  datatype Pred = TyOutlives(name: Name, lt: Lt) | LtOutlives(sub: Lt, lt: Lt)

  datatype Output =
    | Unit
    | Plain(ty: Ty)
    | Opaque(bounds: seq<Bound>)
    // `DynObject<dyn bounds, storage>`, alone or in a `MaybeSync`
    | DynObj(bounds: seq<Bound>, storage: string)
    | MaybeSyncObj(bounds: seq<Bound>, storage: string)

  datatype Signature = Signature(
    name: string,
    isAsync: bool,
    generics: seq<Generic>,
    preds: seq<Pred>,
    inputs: seq<Arg>,
    output: Output
  )

  /** An option of a `dyn_trait` attribute on a method. */
  datatype AttrOption = StorageOption(path: string) | MaybeSyncOption | UnknownOption

  datatype Attr = DynTraitAttr(options: seq<AttrOption>) | OtherAttr(path: string)

  datatype Method = Method(attrs: seq<Attr>, sig: Signature)

  /** An item of a trait. A type has generic parameters, a `where` clause, or neither. */
  datatype Item =
    | TypeItem(name: string, hasParams: bool, hasWhere: bool)
    | FnItem(fn: Method)
    | OtherItem(name: string)

  function ReceiverOf(sig: Signature): Option<Arg> {
    if |sig.inputs| > 0 && sig.inputs[0].Receiver? then Some(sig.inputs[0]) else None
  }

  /** A method that can be called through a vtable: its receiver is a reference or a pinned one, and
      its generic parameters are lifetimes. */
  predicate Dispatchable(sig: Signature) {
    ReceiverOf(sig).Some?
    && (ReceiverOf(sig).value.lt.Some? || PinnedRef(ReceiverOf(sig).value.ty).Some?)
    && forall i :: 0 <= i < |sig.generics| ==> sig.generics[i].LtParam?
  }

  /** `&self`, `&mut self`, `self: Pin<&Self>` or `self: Pin<&mut Self>`. */
  predicate ByReference(a: Arg) {
    a.Receiver? && (a.lt.Some? || PinsSelf(a.ty))
  }

  /** `Pin<&Self>` or `Pin<&mut Self>`, under any path that ends so. */
  predicate PinsSelf(ty: Ty) {
    match ty
    case Path(name, lts, _, args, _) =>
      |name| > 0 && name[|name| - 1] == "Pin" && |lts| == 0 && |args| > 0
      && (match args[0] case Ref(_, _, to) => to == SELF_TY case _ => false)
    case _ => false
  }

  /** What a vtable entry can be made for: a method that takes `self` by reference and is generic in
      lifetimes only. */
  predicate VtableCallable(sig: Signature) {
    |sig.inputs| > 0 && ByReference(sig.inputs[0]) && forall g :: g in sig.generics ==> g.LtParam?
  }

  lemma DispatchableIff(sig: Signature)
    ensures Dispatchable(sig) <==> VtableCallable(sig)
  {
    assert forall g :: g in sig.generics ==> exists i :: 0 <= i < |sig.generics| && sig.generics[i] == g;
    assert |sig.inputs| > 0 && sig.inputs[0].Receiver? ==>
      (PinnedRef(sig.inputs[0].ty).Some? <==> PinsSelf(sig.inputs[0].ty));
  }

  /** The declared return type as one type; `impl` is kept as a constructor over its bounds. */
  function OutputTy(o: Output): Ty {
    match o
    case Unit => Path(["()"], [], Co, [], Co)
    case Plain(ty) => ty
    case Opaque(bounds) => Path(["impl"], [], Inv, TraitTys(bounds), Inv)
    case DynObj(bounds, _) => Path(["DynObject"], [], Inv, TraitTys(bounds), Inv)
    case MaybeSyncObj(bounds, _) => Path(["MaybeSync"], [], Inv, TraitTys(bounds), Inv)
  }

  /** The types in the traits of the bounds, bindings included. */
  function TraitTys(bounds: seq<Bound>): seq<Ty> {
    if bounds == [] then []
    else (if bounds[0].TraitBound? then [bounds[0].ty] + BindingTys(bounds[0].bindings) else []) + TraitTys(bounds[1..])
  }

  function BindingTys(bindings: seq<Binding>): (r: seq<Ty>)
    ensures |r| == |bindings|
  {
    seq(|bindings|, i requires 0 <= i < |bindings| => bindings[i].ty)
  }
}
