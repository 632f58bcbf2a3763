/** `DynMethod`: how `dyn_trait` rewrites one method, step by step. */
module DynMethod {
  import opened Wrappers
  import opened Syntax
  import opened Patterns
  import opened Lifetimes

  // ----- what the steps compute -----

  const FUTURE_TY: Ty := Path(["Future"], [], Inv, [], Inv)

  /** `async fn` as a method returning `impl Future`. */
  function Desugared(sig: Signature): Signature {
    if sig.isAsync then
      sig.(isAsync := false, output := Opaque([TraitBound(FUTURE_TY, [Binding("Output", OutputTy(sig.output))])]))
    else sig
  }

  function Rpit(sig: Signature): Option<seq<Bound>> {
    if sig.output.Opaque? then Some(sig.output.bounds) else None
  }

  /** Whether a `dyn_trait` attribute may be used on the method. */
  predicate HasRpit(sig: Signature) { sig.isAsync || sig.output.Opaque? }

  // the parameter's name is kept paired with the method's; `to_pascal_case` is left open
  function StorageName(name: string): string { "__Storage" + name }

  /** The signature before its lifetimes are rewritten. */
  function Prepared(sig: Signature): Signature {
    Desugared(sig.(inputs := ClearInputs(sig.inputs)))
  }

  /** The signature of the generated method. */
  function DynSig(sig: Signature, traitTypes: seq<string>): Signature {
    match Rpit(Prepared(sig))
    case Some(bounds) => DynSignature(Prepared(sig), bounds, traitTypes, StorageName(sig.name))
    case None => Prepared(sig)
  }

  /** `future_output`: the `Output` of the first bound named `Future`. */
  function FutureOutput(bounds: seq<Bound>): Option<Ty> {
    if bounds == [] then None
    else if bounds[0].TraitBound? && bounds[0].ty.Path? && |bounds[0].ty.name| > 0
            && bounds[0].ty.name[|bounds[0].ty.name| - 1] == "Future"
    then BindingOf(bounds[0].bindings, "Output")
    else FutureOutput(bounds[1..])
  }

  function BindingOf(bindings: seq<Binding>, name: string): Option<Ty> {
    if bindings == [] then None
    else if bindings[0].name == name then Some(bindings[0].ty)
    else BindingOf(bindings[1..], name)
  }

  /** A trait whose path ends in `Future`. */
  predicate IsFuture(b: Bound) {
    match b
    case TraitBound(Path(name, _, _, _, _), _) => |name| > 0 && name[|name| - 1] == "Future"
    case _ => false
  }

  /** The first such bound has `Output = ty` as its first binding of that name. */
  predicate DeclaresOutput(bounds: seq<Bound>, ty: Ty) {
    exists i :: 0 <= i < |bounds| && IsFuture(bounds[i]) && BindsOutput(bounds[i].bindings, ty)
                && forall k :: 0 <= k < i ==> !IsFuture(bounds[k])
  }

  predicate BindsOutput(bindings: seq<Binding>, ty: Ty) {
    exists j :: 0 <= j < |bindings| && bindings[j] == Binding("Output", ty)
                && forall k :: 0 <= k < j ==> bindings[k].name != "Output"
  }

  lemma {:induction false} BindingIff(bindings: seq<Binding>, ty: Ty)
    ensures BindingOf(bindings, "Output") == Some(ty) <==> BindsOutput(bindings, ty)
    decreases bindings
  {
    if bindings != [] {
      var rest := bindings[1..];
      BindingIff(rest, ty);
      assert forall k :: 0 <= k < |rest| ==> rest[k] == bindings[k + 1];
      if bindings[0].name != "Output" && BindsOutput(rest, ty) {
        var j :| 0 <= j < |rest| && rest[j] == Binding("Output", ty)
                 && forall k :: 0 <= k < j ==> rest[k].name != "Output";
        assert bindings[j + 1] == Binding("Output", ty);
      }
      if bindings[0].name != "Output" && BindsOutput(bindings, ty) {
        var j :| 0 <= j < |bindings| && bindings[j] == Binding("Output", ty)
                 && forall k :: 0 <= k < j ==> bindings[k].name != "Output";
        assert rest[j - 1] == Binding("Output", ty);
      }
    }
  }

  /** What `future_output` finds. */
  lemma {:induction false} FutureOutputIff(bounds: seq<Bound>, ty: Ty)
    ensures FutureOutput(bounds) == Some(ty) <==> DeclaresOutput(bounds, ty)
    decreases bounds
  {
    hide BindsOutput, BindingOf;
    if bounds != [] {
      var rest := bounds[1..];
      FutureOutputIff(rest, ty);
      assert forall k :: 0 <= k < |rest| ==> rest[k] == bounds[k + 1];
      if IsFuture(bounds[0]) {
        BindingIff(bounds[0].bindings, ty);
      } else if DeclaresOutput(rest, ty) {
        var i :| 0 <= i < |rest| && IsFuture(rest[i]) && BindsOutput(rest[i].bindings, ty)
                 && forall k :: 0 <= k < i ==> !IsFuture(rest[k]);
        assert IsFuture(bounds[i + 1]);
      }
    }
  }

  /** An async method always returns a future, whose output is what it declares, `()` by default. */
  lemma AsyncIsFuture(sig: Signature)
    requires sig.isAsync
    ensures HasRpit(sig) && Rpit(Prepared(sig)).Some?
    ensures FutureOutput(Rpit(Prepared(sig)).value) == Some(OutputTy(sig.output))
    ensures sig.output.Plain? ==> FutureOutput(Rpit(Prepared(sig)).value) == Some(sig.output.ty)
    ensures sig.output.Unit? ==> FutureOutput(Rpit(Prepared(sig)).value) == Some(Path(["()"], [], Co, [], Co))
  {
  }

  /** Exactly the methods with an opaque return type are rewritten; the others keep their types,
      and every method keeps its name and the shape of its parameter list. */
  lemma RewrittenIff(sig: Signature, traitTypes: seq<string>)
    ensures DynSig(sig, traitTypes).output.DynObj? <==> HasRpit(sig) || sig.output.DynObj?
    ensures !HasRpit(sig) ==> DynSig(sig, traitTypes) == sig.(inputs := ClearInputs(sig.inputs))
    ensures DynSig(sig, traitTypes).name == sig.name && !DynSig(sig, traitTypes).isAsync
    ensures ParamPats(DynSig(sig, traitTypes).inputs) == ClearAll(ParamPats(sig.inputs))
    ensures Prepared(sig).generics == sig.generics && Prepared(sig).preds == sig.preds
    ensures |Prepared(sig).inputs| == |sig.inputs|
    ensures forall i :: 0 <= i < |sig.inputs| ==>
      match sig.inputs[i]
      case Receiver(_, _, _) => Prepared(sig).inputs[i] == sig.inputs[i]
      case Typed(_, ty) => Prepared(sig).inputs[i].Typed? && Prepared(sig).inputs[i].ty == ty
  {
    FnArgsCleared(sig.inputs);
    if HasRpit(sig) {
      RewritePats(ClearInputs(sig.inputs), Captured(Rpit(Prepared(sig)).value, sig.generics));
    }
  }

  lemma {:induction false} RewritePats(inputs: seq<Arg>, captured: set<Lt>)
    ensures ParamPats(RewriteInputs(inputs, captured)) == ParamPats(inputs)
    decreases inputs
  {
    if inputs != [] {
      RewritePats(inputs[1..], captured);
      assert RewriteInputs(inputs, captured)[1..] == RewriteInputs(inputs[1..], captured);
    }
  }

  // ----- the steps -----

  class CapturedLifetimes {
    const captured: set<Lt>

    constructor (bounds: seq<Bound>, generics: seq<Generic>)
      ensures captured == Captured(bounds, generics)
      ensures forall l :: l in captured <==> Captures(bounds, generics, l)
    {
      var lts: set<Lt> := {};
      var precise := FindPrecise(bounds);
      match precise {
        case Some(c) =>
          for n := 0 to |c|
            invariant lts == set i | 0 <= i < n && c[i].CapLt? :: c[i].lt
          {
            if c[n].CapLt? { lts := lts + {c[n].lt}; }
          }
        case None =>
          for n := 0 to |generics|
            invariant lts == set i | 0 <= i < n && generics[i].LtParam? :: generics[i].lt
          {
            if generics[n].LtParam? { lts := lts + {generics[n].lt}; }
          }
          lts := lts + {Underscore};
      }
      captured := lts;
      forall l { CapturedIff(bounds, generics, l); }
    }

    static method FindPrecise(bounds: seq<Bound>) returns (r: Option<seq<Capture>>)
      ensures r == FirstPrecise(bounds)
    {
      var n := 0;
      while n < |bounds|
        invariant n <= |bounds| && FirstPrecise(bounds) == FirstPrecise(bounds[n..])
      {
        if bounds[n].Precise? { return Some(bounds[n].captures); }
        assert bounds[n..][1..] == bounds[n + 1..];
        n := n + 1;
      }
      return None;
    }
  }

  /** A signature that is rewritten in place. */
  class MethodSig {
    const name: string
    var isAsync: bool
    var generics: seq<Generic>
    var preds: seq<Pred>
    var inputs: seq<Arg>
    var output: Output

    constructor (sig: Signature)
      ensures Sig() == sig
    {
      name, isAsync, generics, preds, inputs, output := sig.name, sig.isAsync, sig.generics, sig.preds, sig.inputs,
        sig.output;
    }

    function Sig(): Signature
      reads this
    {
      Signature(name, isAsync, generics, preds, inputs, output)
    }

    /** `PatternAsArg` on every parameter. */
    method ClearPatterns()
      modifies this`inputs
      ensures inputs == ClearInputs(old(inputs))
    {
      for n := 0 to |inputs|
        invariant |inputs| == |old(inputs)|
        invariant inputs[..n] == ClearInputs(old(inputs))[..n] && inputs[n..] == old(inputs)[n..]
      {
        assert inputs[n] == inputs[n..][0] == old(inputs)[n];
        match inputs[n]
        case Typed(pat, ty) =>
          inputs := inputs[n := Typed(Clear(pat), ty)];
        case Receiver(_, _, _) =>
      }
      assert inputs[..|inputs|] == inputs && ClearInputs(old(inputs))[..|inputs|] == ClearInputs(old(inputs));
    }

    method Desugar()
      modifies this`isAsync, this`output
      ensures Sig() == Desugared(old(Sig()))
    {
      if isAsync {
        isAsync := false;
        output := Opaque([TraitBound(FUTURE_TY, [Binding("Output", OutputTy(output))])]);
      }
    }

    /** `update_dyn_signature`. */
    method UpdateDynSignature(traitTypes: seq<string>, bounds: seq<Bound>, storage: string)
      modifies this
      ensures Sig() == DynSignature(old(Sig()), bounds, traitTypes, storage)
    {
      var visitor := new CapturedLifetimes(bounds, generics);
      var captured := visitor.captured;

      var dynBounds := RewriteBounds(bounds, captured);
      BoundTypes(traitTypes);
      VisitGenerics(captured);
      generics := [LtParam(Dyn, [])] + generics;
      VisitInputs(captured);
      output := DynObj(dynBounds, storage);
    }

    static method RewriteBounds(bounds: seq<Bound>, captured: set<Lt>) returns (r: seq<Bound>)
      ensures r == DynBounds(bounds, captured)
    {
      r := [];
      for n := 0 to |bounds|
        invariant DynBounds(bounds, captured) == r + DynBounds(bounds[n..], captured)
      {
        assert bounds[n..][1..] == bounds[n + 1..];
        if bounds[n].TraitBound? {
          r := r + [RewriteBound(bounds[n], captured)];
        }
      }
      r := r + [LtBound(Dyn)];
    }

    /** Every type parameter is captured, `Self` included. */
    method BoundTypes(traitTypes: seq<string>)
      modifies this`preds
      ensures preds == old(preds) + DynPreds(traitTypes)
    {
      for n := 0 to |traitTypes|
        invariant preds == old(preds) + DynPreds(traitTypes)[..n]
      {
        preds := preds + [TyOutlives([traitTypes[n]], Dyn)];
      }
      preds := preds + [TyOutlives(SELF, Dyn)];
    }

    method VisitGenerics(captured: set<Lt>)
      modifies this`generics
      ensures generics ==
        seq(|old(generics)|, i requires 0 <= i < |old(generics)| => DynGeneric(old(generics)[i], captured))
    {
      for n := 0 to |generics|
        invariant |generics| == |old(generics)|
        invariant forall i :: 0 <= i < |generics| ==>
          generics[i] == if i < n then DynGeneric(old(generics)[i], captured) else old(generics)[i]
      {
        var g := generics[n];
        if g.LtParam? && g.lt in captured {
          generics := generics[n := g.(bounds := g.bounds + [Dyn])];
        }
      }
    }

    method VisitInputs(captured: set<Lt>)
      modifies this`inputs
      ensures inputs == RewriteInputs(old(inputs), captured)
    {
      for n := 0 to |inputs|
        invariant |inputs| == |old(inputs)|
        invariant forall i :: 0 <= i < |inputs| ==>
          inputs[i] == if i < n then RewriteArg(old(inputs)[i], captured) else old(inputs)[i]
      {
        inputs := inputs[n := RewriteArg(inputs[n], captured)];
      }
    }

    /** `DynMethod::new`: the return type bounds found on the way, if the type is opaque. */
    method New(traitTypes: seq<string>) returns (rpit: Option<seq<Bound>>)
      modifies this
      ensures Sig() == DynSig(old(Sig()), traitTypes) && rpit == Rpit(Prepared(old(Sig())))
    {
      ClearPatterns();
      Desugar();
      assert Sig() == Prepared(old(Sig()));
      rpit := Rpit(Sig());
      if rpit.Some? {
        UpdateDynSignature(traitTypes, rpit.value, StorageName(name));
      }
    }
  }
}
