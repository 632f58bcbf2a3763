/** The lifetime rewriting of `dyn_trait`: `CapturedLifetimes` and `update_dyn_signature`, proved
    sound and complete for the regions a call may choose. */
module Lifetimes {
  import opened Wrappers
  import opened Syntax
  import opened Regions

  // ----- the rewriting -----

  function RewriteLt(l: Lt, captured: set<Lt>): Lt {
    if l == Underscore && l in captured then Dyn else l
  }

  /** What the visitor leaves in place of a type. It also goes inside `Fn`; a hidden lifetime of a
      path has no token to rewrite. */
  function Rewrite(ty: Ty, captured: set<Lt>): Ty {
    match ty
    case Path(n, lts, lv, args, av) =>
      Path(n, seq(|lts|, i requires 0 <= i < |lts| => RewriteLt(lts[i], captured)), lv,
           seq(|args|, i requires 0 <= i < |args| => Rewrite(args[i], captured)), av)
    case Ref(lt, m, to) =>
      Ref(RewriteLt(if lt.Absent? then Underscore else lt, captured), m, Rewrite(to, captured))
    case Fn(params, ret) =>
      Fn(seq(|params|, i requires 0 <= i < |params| => Rewrite(params[i], captured)), Rewrite(ret, captured))
  }

  function RewriteArg(a: Arg, captured: set<Lt>): (r: Arg)
    ensures ArgTy(r) == Rewrite(ArgTy(a), captured)
  {
    assert Rewrite(SELF_TY, captured) == SELF_TY;
    match a
    case Receiver(Some(lt), m, ty) =>
      Receiver(Some(RewriteLt(if lt.Absent? then Underscore else lt, captured)), m, Rewrite(ty, captured))
    case Receiver(None, m, ty) => Receiver(None, m, Rewrite(ty, captured))
    case Typed(pat, ty) => Typed(pat, Rewrite(ty, captured))
  }

  function RewriteInputs(inputs: seq<Arg>, captured: set<Lt>): (r: seq<Arg>)
    ensures |r| == |inputs|
  {
    seq(|inputs|, i requires 0 <= i < |inputs| => RewriteArg(inputs[i], captured))
  }

  function FirstPrecise(bounds: seq<Bound>): Option<seq<Capture>> {
    if bounds == [] then None
    else if bounds[0].Precise? then Some(bounds[0].captures)
    else FirstPrecise(bounds[1..])
  }

  /** The lifetimes an `impl Trait` return type captures, `'_` standing for the elided ones. */
  function Captured(bounds: seq<Bound>, generics: seq<Generic>): set<Lt> {
    match FirstPrecise(bounds)
    case Some(c) => set i | 0 <= i < |c| && c[i].CapLt? :: c[i].lt
    case None => (set i | 0 <= i < |generics| && generics[i].LtParam? :: generics[i].lt) + {Underscore}
  }

  /** The first `use<..>` lists `l`; without any, `l` is a lifetime parameter or elided. */
  predicate Captures(bounds: seq<Bound>, generics: seq<Generic>, l: Lt) {
    if exists b :: b in bounds && b.Precise? then
      exists i :: 0 <= i < |bounds| && bounds[i].Precise? && CapLt(l) in bounds[i].captures
                  && forall k :: 0 <= k < i ==> !bounds[k].Precise?
    else l == Underscore || exists g :: g in generics && g.LtParam? && g.lt == l
  }

  lemma {:induction false} FirstPreciseIff(bounds: seq<Bound>)
    ensures FirstPrecise(bounds).None? <==> forall b :: b in bounds ==> !b.Precise?
    ensures FirstPrecise(bounds).Some? ==>
      exists i :: 0 <= i < |bounds| && bounds[i].Precise? && bounds[i].captures == FirstPrecise(bounds).value
                  && forall k :: 0 <= k < i ==> !bounds[k].Precise?
    decreases bounds
  {
    if bounds != [] {
      var rest := bounds[1..];
      FirstPreciseIff(rest);
      assert bounds == [bounds[0]] + rest;
      if !bounds[0].Precise? && FirstPrecise(rest).Some? {
        var i :| 0 <= i < |rest| && rest[i].Precise? && rest[i].captures == FirstPrecise(rest).value
                 && forall k :: 0 <= k < i ==> !rest[k].Precise?;
        assert bounds[i + 1] == rest[i] && forall k :: 0 < k < i + 1 ==> bounds[k] == rest[k - 1];
      }
    }
  }

  /** What is captured. */
  lemma CapturedIff(bounds: seq<Bound>, generics: seq<Generic>, l: Lt)
    ensures l in Captured(bounds, generics) <==> Captures(bounds, generics, l)
  {
    FirstPreciseIff(bounds);
    match FirstPrecise(bounds)
    case Some(c) =>
      var i :| 0 <= i < |bounds| && bounds[i].Precise? && bounds[i].captures == c
               && forall k :: 0 <= k < i ==> !bounds[k].Precise?;
      assert bounds[i] in bounds;
      assert l in Captured(bounds, generics) <==> CapLt(l) in c by {
        if CapLt(l) in c {
          var k :| 0 <= k < |c| && c[k] == CapLt(l);
          assert c[k].CapLt? && c[k].lt == l;
        }
      }
    case None =>
      if g :| g in generics && g.LtParam? && g.lt == l {
        var k :| 0 <= k < |generics| && generics[k] == g;
        assert generics[k].LtParam? && generics[k].lt == l;
      }
  }

  function DynGeneric(g: Generic, captured: set<Lt>): Generic {
    if g.LtParam? && g.lt in captured then g.(bounds := g.bounds + [Dyn]) else g
  }

  function RewriteBound(b: Bound, captured: set<Lt>): (r: Bound)
    requires b.TraitBound?
    ensures r.TraitBound?
  {
    TraitBound(Rewrite(b.ty, captured),
               seq(|b.bindings|, i requires 0 <= i < |b.bindings| =>
                 Binding(b.bindings[i].name, Rewrite(b.bindings[i].ty, captured))))
  }

  /** The bounds of the returned `dyn`: the traits, then `'__dyn`. */
  function DynBounds(bounds: seq<Bound>, captured: set<Lt>): seq<Bound> {
    if bounds == [] then [LtBound(Dyn)]
    else (if bounds[0].TraitBound? then [RewriteBound(bounds[0], captured)] else []) + DynBounds(bounds[1..], captured)
  }

  function DynPreds(traitTypes: seq<string>): seq<Pred> {
    seq(|traitTypes|, i requires 0 <= i < |traitTypes| => TyOutlives([traitTypes[i]], Dyn)) + [TyOutlives(SELF, Dyn)]
  }

  /** The signature of the generated method. */
  function DynSignature(sig: Signature, bounds: seq<Bound>, traitTypes: seq<string>, storage: string): Signature {
    var captured := Captured(bounds, sig.generics);
    sig.(generics := [LtParam(Dyn, [])]
                     + seq(|sig.generics|, i requires 0 <= i < |sig.generics| => DynGeneric(sig.generics[i], captured)),
         preds := sig.preds + DynPreds(traitTypes),
         inputs := RewriteInputs(sig.inputs, captured),
         output := DynObj(DynBounds(bounds, captured), storage))
  }

  // ----- where elided lifetimes stand -----

  /** A lifetime elided with a token to rewrite, outside any `Fn`. */
  predicate Visible(ty: Ty) {
    match ty
    case Path(_, lts, _, args, _) => Underscore in lts || exists i :: 0 <= i < |args| && Visible(args[i])
    case Ref(lt, _, to) => Elided(lt) || Visible(to)
    case Fn(_, _) => false
  }

  /** The same inside a `Fn`, where it is bound by that `Fn`. */
  predicate FnElided(ty: Ty) {
    match ty
    case Path(_, _, _, args, _) => exists i :: 0 <= i < |args| && FnElided(args[i])
    case Ref(_, _, to) => FnElided(to)
    case Fn(params, ret) =>
      (exists i :: 0 <= i < |params| && (Visible(params[i]) || FnElided(params[i]))) || Visible(ret) || FnElided(ret)
  }

  /** A hidden lifetime that is not behind a reference. */
  predicate Exposed(ty: Ty) {
    match ty
    case Path(_, lts, _, args, _) => Absent in lts || exists i :: 0 <= i < |args| && Exposed(args[i])
    case Ref(_, _, _) => false
    case Fn(_, _) => false
  }

  /** Every visible elided lifetime of a type used at variance `v` is at a covariant position. */
  predicate Covariant(ty: Ty, v: Variance) {
    match ty
    case Path(_, lts, lv, args, av) =>
      (Underscore in lts ==> Compose(v, lv) == Co)
      && forall i :: 0 <= i < |args| ==> Covariant(args[i], Compose(v, av))
    case Ref(lt, m, to) => (Elided(lt) ==> v == Co) && Covariant(to, if m then Inv else v)
    case Fn(_, _) => true
  }

  /** The lifetimes a type names outside `Fn` are declared, and `'__dyn` is not among them. */
  predicate Declared(ty: Ty, names: set<Lt>) {
    match ty
    case Path(_, lts, _, args, _) =>
      (forall i :: 0 <= i < |lts| ==> Elided(lts[i]) || lts[i] in names)
      && forall i :: 0 <= i < |args| ==> Declared(args[i], names)
    case Ref(lt, _, to) => (Elided(lt) || lt in names) && Declared(to, names)
    case Fn(_, _) => true
  }

  predicate NoDyn(ty: Ty) {
    match ty
    case Path(_, lts, _, args, _) => Dyn !in lts && forall i :: 0 <= i < |args| ==> NoDyn(args[i])
    case Ref(lt, _, to) => lt != Dyn && NoDyn(to)
    case Fn(params, ret) => (forall i :: 0 <= i < |params| ==> NoDyn(params[i])) && NoDyn(ret)
  }

  // ----- the regions at elided lifetimes -----

  /** `p` holds of the region at each visible elided lifetime of `ty` in `s`. */
  ghost predicate AtVisible(ty: Ty, s: Sem, p: Region -> bool) {
    match ty
    case Path(_, lts, _, args, _) =>
      s.SemPath? && |s.lts| == |lts| && |s.args| == |args|
      && (forall i :: 0 <= i < |lts| && lts[i] == Underscore && s.lts[i].In? ==> p(s.lts[i].region))
      && forall i :: 0 <= i < |args| ==> AtVisible(args[i], s.args[i], p)
    case Ref(lt, _, to) => s.SemRef? && (Elided(lt) && s.lt.In? ==> p(s.lt.region)) && AtVisible(to, s.to, p)
    case Fn(_, _) => true
  }

  /** The same for the hidden ones. */
  ghost predicate AtHidden(ty: Ty, s: Sem, p: Region -> bool) {
    match ty
    case Path(_, lts, _, args, _) =>
      s.SemPath? && |s.lts| == |lts| && |s.args| == |args|
      && (forall i :: 0 <= i < |lts| && lts[i] == Absent && s.lts[i].In? ==> p(s.lts[i].region))
      && forall i :: 0 <= i < |args| ==> AtHidden(args[i], s.args[i], p)
    case Ref(_, _, to) => s.SemRef? && AtHidden(to, s.to, p)
    case Fn(_, _) => true
  }

  // ----- rewriting and meaning -----

  /** Elided lifetimes that all mean the region of `'__dyn`, or are not rewritten, keep the meaning
      of the type; any other choice loses it. */
  lemma {:induction false} UniformRewrite(ty: Ty, captured: set<Lt>, sc: Scope, elided: SemLt)
    ensures Uniform(Rewrite(ty, captured), sc, elided) == Uniform(ty, sc, elided) <==>
            (Underscore in captured ==> !FnElided(ty) && (Visible(ty) ==> elided == In(sc.dyn)))
    decreases ty
  {
    var now, was := Uniform(Rewrite(ty, captured), sc, elided), Uniform(ty, sc, elided);
    var kept := Underscore in captured ==> !FnElided(ty) && (Visible(ty) ==> elided == In(sc.dyn));
    match ty
    case Path(_, lts, _, args, _) =>
      forall i | 0 <= i < |args| { UniformRewrite(args[i], captured, sc, elided); }
      if kept {
        assert now.lts == was.lts && now.args == was.args;
      } else if i :| 0 <= i < |lts| && lts[i] == Underscore && elided != In(sc.dyn) {
        assert now.lts[i] != was.lts[i];
      } else {
        var i :| 0 <= i < |args| && (FnElided(args[i]) || (Visible(args[i]) && elided != In(sc.dyn)));
        assert now.args[i] != was.args[i];
      }
    case Ref(_, _, to) => UniformRewrite(to, captured, sc, elided);
    case Fn(params, ret) =>
      forall i | 0 <= i < |params| { UniformRewrite(params[i], captured, sc, Bound); }
      UniformRewrite(ret, captured, sc, Bound);
      if kept {
        assert now.params == was.params;
      } else if i :| 0 <= i < |params| && (FnElided(params[i]) || Visible(params[i])) {
        assert now.params[i] != was.params[i];
      }
  }

  /** The instances of a rewritten type are those of the original whose captured elided lifetimes
      are `'__dyn`. */
  lemma {:induction false} RewriteInst(ty: Ty, captured: set<Lt>, s: Sem, sc: Scope)
    requires Underscore in captured ==> !FnElided(ty)
    ensures Inst(Rewrite(ty, captured), s, sc) <==>
            Inst(ty, s, sc) && (Underscore in captured ==> AtVisible(ty, s, r => r == sc.dyn))
    decreases ty
  {
    match ty
    case Path(_, lts, _, args, _) =>
      forall i | 0 <= i < |args| && s.SemPath? && |s.args| == |args|
        ensures Inst(Rewrite(args[i], captured), s.args[i], sc) <==>
                Inst(args[i], s.args[i], sc)
                  && (Underscore in captured ==> AtVisible(args[i], s.args[i], r => r == sc.dyn))
      { RewriteInst(args[i], captured, s.args[i], sc); }
    case Ref(_, _, to) => if s.SemRef? { RewriteInst(to, captured, s.to, sc); }
    case Fn(_, _) => UniformRewrite(ty, captured, sc, Bound);
  }

  /** An elided lifetime rewritten inside a `Fn` leaves no common instance. */
  lemma {:induction false} FnClash(ty: Ty, captured: set<Lt>, s: Sem, sc: Scope)
    requires Underscore in captured && FnElided(ty)
    requires Inst(Rewrite(ty, captured), s, sc)
    ensures !Inst(ty, s, sc)
    decreases ty
  {
    match ty
    case Path(_, _, _, args, _) =>
      var i :| 0 <= i < |args| && FnElided(args[i]);
      FnClash(args[i], captured, s.args[i], sc);
    case Ref(_, _, to) => FnClash(to, captured, s.to, sc);
    case Fn(_, _) => UniformRewrite(ty, captured, sc, Bound);
  }

  // ----- soundness -----

  /** The regions of the declared lifetimes outlive that of `'__dyn`. */
  ghost predicate DeclaredAbove(names: set<Lt>, sc: Scope) {
    forall l :: l in names ==> sc.dyn <= LtRegion(l, sc)
  }

  /** Behind a reference that outlives `'__dyn`, hidden lifetimes do too. */
  lemma {:induction false} HiddenBehind(ty: Ty, s: Sem, r: Region, sc: Scope)
    requires Inst(ty, s, sc) && Outlives(s, r, sc) && sc.dyn <= r
    ensures AtHidden(ty, s, x => sc.dyn <= x)
    decreases ty
  {
    match ty
    case Path(_, _, _, args, _) =>
      forall i | 0 <= i < |args| ensures AtHidden(args[i], s.args[i], x => sc.dyn <= x) {
        HiddenBehind(args[i], s.args[i], r, sc);
      }
    case Ref(_, _, to) => HiddenBehind(to, s.to, r, sc);
    case Fn(_, _) =>
  }

  /** In a well-formed argument of the generated method every hidden lifetime that is behind a
      reference outlives `'__dyn`. */
  lemma {:induction false} HiddenAbove(ty: Ty, names: set<Lt>, s: Sem, sc: Scope)
    requires Inst(ty, s, sc) && WellFormed(s, sc) && AtVisible(ty, s, r => r == sc.dyn)
    requires Declared(ty, names) && DeclaredAbove(names, sc) && !Exposed(ty)
    ensures AtHidden(ty, s, x => sc.dyn <= x)
    decreases ty
  {
    match ty
    case Path(_, _, _, args, _) =>
      forall i | 0 <= i < |args| ensures AtHidden(args[i], s.args[i], x => sc.dyn <= x) {
        HiddenAbove(args[i], names, s.args[i], sc);
      }
    case Ref(lt, _, to) =>
      assert sc.dyn <= s.lt.region;
      HiddenBehind(to, s.to, s.lt.region, sc);
    case Fn(_, _) =>
  }

  /** The lifetimes a method can name: its own parameters and `'static`. */
  function Names(generics: seq<Generic>): set<Lt> {
    (set i | 0 <= i < |generics| && generics[i].LtParam? :: generics[i].lt) + {Named("static")}
  }

  /** A method of a trait without lifetime parameters, returning `impl bounds`, whose only generic
      parameters are lifetimes. */
  predicate Scoped(sig: Signature, bounds: seq<Bound>) {
    (forall g :: g in sig.generics ==>
       g.LtParam? && g.lt.Named? && forall l :: l in g.bounds ==> l in Names(sig.generics))
    && (forall p :: p in sig.preds ==>
          p.lt in Names(sig.generics) && (p.LtOutlives? ==> p.sub in Names(sig.generics)))
    && (forall i :: 0 <= i < |sig.inputs| ==>
          Declared(ArgTy(sig.inputs[i]), Names(sig.generics)) && NoDyn(ArgTy(sig.inputs[i])))
    && (forall l :: l in Captured(bounds, sig.generics) ==> l == Underscore || l in Names(sig.generics))
  }

  /** Every captured lifetime, `Self` and every type parameter of the trait outlive `'__dyn`. The
      elided ones that have a token are all rewritten to it; without `use<..>` the hidden ones are
      captured too. */
  ghost predicate CapturedOutlive(sig: Signature, bounds: seq<Bound>, traitTypes: seq<string>, sc: Scope,
                                  args: seq<Sem>)
  {
    var captured := Captured(bounds, sig.generics);
    |args| == |sig.inputs|
    && (forall l :: l in captured && !Elided(l) ==> sc.dyn <= LtRegion(l, sc))
    && sc.dyn <= sc.types(SELF)
    && (forall t :: t in traitTypes ==> sc.dyn <= sc.types([t]))
    && (Underscore in captured ==> forall i :: 0 <= i < |args| ==>
      AtVisible(ArgTy(sig.inputs[i]), args[i], r => r == sc.dyn))
    && (FirstPrecise(bounds).None? ==> forall i :: 0 <= i < |args| ==>
      AtHidden(ArgTy(sig.inputs[i]), args[i], r => sc.dyn <= r))
  }

  /** What the rewriting needs of the parameters: no elided lifetime inside a `Fn` when elided ones
      are captured, and no exposed hidden lifetime when everything is captured. */
  predicate Rewritable(sig: Signature, bounds: seq<Bound>) {
    (Underscore in Captured(bounds, sig.generics) ==>
      forall i :: 0 <= i < |sig.inputs| ==> !FnElided(ArgTy(sig.inputs[i])))
    && (FirstPrecise(bounds).None? ==> forall i :: 0 <= i < |sig.inputs| ==> !Exposed(ArgTy(sig.inputs[i])))
  }

  lemma DynGenericHolds(g: Generic, captured: set<Lt>, sc: Scope)
    requires g.LtParam?
    ensures BoundHolds(DynGeneric(g, captured), sc) <==>
            BoundHolds(g, sc) && (g.lt in captured ==> sc.dyn <= LtRegion(g.lt, sc))
  {
    var d := DynGeneric(g, captured);
    assert forall k :: 0 <= k < |g.bounds| ==> d.bounds[k] == g.bounds[k];
    assert g.lt in captured ==> d.bounds[|g.bounds|] == Dyn;
  }

  lemma Unbounded(sc: Scope)
    ensures BoundHolds(LtParam(Dyn, []), sc)
  {
  }

  lemma DynGenericsHold(sig: Signature, bounds: seq<Bound>, traitTypes: seq<string>, storage: string, sc: Scope)
    requires Scoped(sig, bounds)
    ensures BoundsHold(DynSignature(sig, bounds, traitTypes, storage).generics, sc) <==>
            BoundsHold(sig.generics, sc)
            && forall l :: l in Captured(bounds, sig.generics) && !Elided(l) ==> sc.dyn <= LtRegion(l, sc)
  {
    hide Inst, WellFormed, BoundHolds, DynGeneric, Captured, FirstPrecise;
    var captured, was := Captured(bounds, sig.generics), sig.generics;
    var now := DynSignature(sig, bounds, traitTypes, storage).generics;
    Unbounded(sc);
    forall g | g in was ensures DynGeneric(g, captured) in now {
      var i :| 0 <= i < |was| && was[i] == g;
      assert now[i + 1] == DynGeneric(g, captured);
    }
    forall g | g in now ensures g == LtParam(Dyn, []) || exists w :: w in was && g == DynGeneric(w, captured) {
      var i :| 0 <= i < |now| && now[i] == g;
      if i > 0 { assert was[i - 1] in was && g == DynGeneric(was[i - 1], captured); }
    }
    forall g | g in was { DynGenericHolds(g, captured, sc); }
  }

  lemma DynPredsHold(sig: Signature, bounds: seq<Bound>, traitTypes: seq<string>, storage: string, sc: Scope)
    ensures (forall p :: p in DynSignature(sig, bounds, traitTypes, storage).preds ==> PredHolds(p, sc)) <==>
            (forall p :: p in sig.preds ==> PredHolds(p, sc))
            && sc.dyn <= sc.types(SELF) && forall t :: t in traitTypes ==> sc.dyn <= sc.types([t])
  {
    hide Inst, WellFormed;
    var now := DynSignature(sig, bounds, traitTypes, storage).preds;
    if forall p :: p in now ==> PredHolds(p, sc) {
      assert PredHolds(TyOutlives(SELF, Dyn), sc) by { assert now[|now| - 1] == TyOutlives(SELF, Dyn); }
      forall t | t in traitTypes ensures sc.dyn <= sc.types([t]) {
        var i :| 0 <= i < |traitTypes| && traitTypes[i] == t;
        assert now[|sig.preds| + i] == TyOutlives([t], Dyn);
        assert PredHolds(TyOutlives([t], Dyn), sc);
      }
    }
  }

  lemma DynArgFits(sig: Signature, bounds: seq<Bound>, traitTypes: seq<string>, storage: string, i: int)
    requires 0 <= i < |sig.inputs|
    ensures var d := DynSignature(sig, bounds, traitTypes, storage);
      |d.inputs| == |sig.inputs|
      && ArgTy(d.inputs[i]) == Rewrite(ArgTy(sig.inputs[i]), Captured(bounds, sig.generics))
  {
  }

  /** A call the generated signature accepts is a call of the original method, in which every
      captured lifetime outlives `'__dyn`. */
  lemma Sound(sig: Signature, bounds: seq<Bound>, traitTypes: seq<string>, storage: string, sc: Scope, args: seq<Sem>)
    requires Scoped(sig, bounds) && Rewritable(sig, bounds)
    requires Fits(DynSignature(sig, bounds, traitTypes, storage), sc, args)
    ensures Fits(sig, sc, args) && CapturedOutlive(sig, bounds, traitTypes, sc, args)
  {
    hide Inst, WellFormed, BoundsHold, PredHolds, Captured, FirstPrecise, DynSignature, Declared, Names, Exposed,
         FnElided, AtVisible, AtHidden;
    var captured := Captured(bounds, sig.generics);
    DynGenericsHold(sig, bounds, traitTypes, storage, sc);
    DynPredsHold(sig, bounds, traitTypes, storage, sc);
    if |sig.inputs| > 0 { DynArgFits(sig, bounds, traitTypes, storage, 0); }
      else { NoInputs(sig, bounds, traitTypes, storage); }
    forall i | 0 <= i < |args|
      ensures Inst(ArgTy(sig.inputs[i]), args[i], sc)
      ensures Underscore in captured ==> AtVisible(ArgTy(sig.inputs[i]), args[i], r => r == sc.dyn)
    {
      DynArgFits(sig, bounds, traitTypes, storage, i);
      RewriteInst(ArgTy(sig.inputs[i]), captured, args[i], sc);
    }
    if FirstPrecise(bounds).None? {
      AllCaptured(sig, bounds, sc);
      forall i | 0 <= i < |args| ensures AtHidden(ArgTy(sig.inputs[i]), args[i], r => sc.dyn <= r) {
        HiddenAbove(ArgTy(sig.inputs[i]), Names(sig.generics), args[i], sc);
      }
    }
  }

  lemma NoInputs(sig: Signature, bounds: seq<Bound>, traitTypes: seq<string>, storage: string)
    requires |sig.inputs| == 0
    ensures |DynSignature(sig, bounds, traitTypes, storage).inputs| == 0
  {
  }

  lemma AllCaptured(sig: Signature, bounds: seq<Bound>, sc: Scope)
    requires Scoped(sig, bounds) && FirstPrecise(bounds).None?
    requires forall l :: l in Captured(bounds, sig.generics) && !Elided(l) ==> sc.dyn <= LtRegion(l, sc)
    ensures Underscore in Captured(bounds, sig.generics) && DeclaredAbove(Names(sig.generics), sc)
  {
    forall l | l in Names(sig.generics) && l != Named("static") ensures l in Captured(bounds, sig.generics) {
      var i :| 0 <= i < |sig.generics| && sig.generics[i].LtParam? && sig.generics[i].lt == l;
    }
  }

  // ----- the conditions are needed -----

  ghost const EVERYTHING: Scope := Scope(_ => EVERYWHERE, EVERYWHERE, _ => EVERYWHERE)

  /** The instance of a type with region `x` at its exposed hidden lifetimes and `EVERYWHERE` at
      all others. */
  ghost function Widest(ty: Ty, x: Region): Sem {
    match ty
    case Path(n, lts, lv, args, av) =>
      SemPath(n, seq(|lts|, i requires 0 <= i < |lts| => In(if lts[i].Absent? then x else EVERYWHERE)), lv,
              seq(|args|, i requires 0 <= i < |args| => Widest(args[i], x)), av)
    case Ref(_, m, to) => SemRef(In(EVERYWHERE), m, Widest(to, EVERYWHERE))
    case Fn(_, _) => Uniform(ty, EVERYTHING, Bound)
  }

  lemma {:induction false} UniformOutlives(ty: Ty, elided: SemLt)
    requires elided == Bound || elided == In(EVERYWHERE)
    ensures Outlives(Uniform(ty, EVERYTHING, elided), EVERYWHERE, EVERYTHING)
    decreases ty
  {
    match ty
    case Path(_, lts, _, args, _) =>
      forall i | 0 <= i < |args| { UniformOutlives(args[i], elided); }
    case Ref(_, _, to) => UniformOutlives(to, elided);
    case Fn(params, ret) =>
      forall i | 0 <= i < |params| { UniformOutlives(params[i], Bound); }
      UniformOutlives(ret, Bound);
  }

  lemma {:induction false} WidestOutlives(ty: Ty)
    ensures Outlives(Widest(ty, EVERYWHERE), EVERYWHERE, EVERYTHING)
    decreases ty
  {
    match ty
    case Path(_, _, _, args, _) => forall i | 0 <= i < |args| { WidestOutlives(args[i]); }
    case Ref(_, _, to) => WidestOutlives(to);
    case Fn(_, _) => UniformOutlives(ty, Bound);
  }

  lemma {:induction false} WidestFits(ty: Ty, x: Region)
    ensures Inst(ty, Widest(ty, x), EVERYTHING) && WellFormed(Widest(ty, x), EVERYTHING)
    decreases ty
  {
    match ty
    case Path(_, _, _, args, _) => forall i | 0 <= i < |args| { WidestFits(args[i], x); }
    case Ref(_, _, to) => WidestFits(to, EVERYWHERE); WidestOutlives(to);
    case Fn(_, _) =>
  }

  lemma {:induction false} WidestExposed(ty: Ty, captured: set<Lt>)
    requires Exposed(ty)
    ensures !AtHidden(ty, Widest(Rewrite(ty, captured), iset{HERE}), r => EVERYWHERE <= r)
    decreases ty
  {
    assert 1 in EVERYWHERE;
    match ty
    case Path(_, lts, _, args, _) =>
      if Absent in lts {
        var i :| 0 <= i < |lts| && lts[i] == Absent;
        assert Widest(Rewrite(ty, captured), iset{HERE}).lts[i] == In(iset{HERE});
      } else {
        var i :| 0 <= i < |args| && Exposed(args[i]);
        WidestExposed(args[i], captured);
      }
    case _ =>
  }

  ghost function WidestCall(sig: Signature, x: Region): (r: seq<Sem>)
    ensures |r| == |sig.inputs|
  {
    seq(|sig.inputs|, i requires 0 <= i < |sig.inputs| => Widest(ArgTy(sig.inputs[i]), x))
  }

  lemma EverythingHolds(generics: seq<Generic>, preds: seq<Pred>)
    ensures BoundsHold(generics, EVERYTHING) && forall p :: p in preds ==> PredHolds(p, EVERYTHING)
  {
  }

  lemma WidestCallFits(sig: Signature, x: Region)
    ensures Fits(sig, EVERYTHING, WidestCall(sig, x))
  {
    hide Inst, WellFormed, BoundsHold, PredHolds;
    EverythingHolds(sig.generics, sig.preds);
    forall i | 0 <= i < |sig.inputs| { WidestFits(ArgTy(sig.inputs[i]), x); }
  }

  /** Otherwise the generated signature accepts a call that it should not. */
  lemma Unsound(sig: Signature, bounds: seq<Bound>, traitTypes: seq<string>, storage: string)
    returns (sc: Scope, args: seq<Sem>)
    requires Scoped(sig, bounds) && !Rewritable(sig, bounds)
    ensures Fits(DynSignature(sig, bounds, traitTypes, storage), sc, args)
    ensures !(Fits(sig, sc, args) && CapturedOutlive(sig, bounds, traitTypes, sc, args))
  {
    hide Inst, WellFormed, BoundsHold, PredHolds, Captured, FirstPrecise, DynSignature, Declared, Names, Exposed,
         FnElided, AtVisible, AtHidden;
    var captured := Captured(bounds, sig.generics);
    sc := EVERYTHING;
    args := WidestCall(DynSignature(sig, bounds, traitTypes, storage), iset{HERE});
    WidestCallFits(DynSignature(sig, bounds, traitTypes, storage), iset{HERE});
    if i :| 0 <= i < |sig.inputs| && Underscore in captured && FnElided(ArgTy(sig.inputs[i])) {
      DynArgFits(sig, bounds, traitTypes, storage, i);
      FnClash(ArgTy(sig.inputs[i]), captured, args[i], sc);
    } else {
      var i :| 0 <= i < |sig.inputs| && Exposed(ArgTy(sig.inputs[i]));
      DynArgFits(sig, bounds, traitTypes, storage, i);
      WidestExposed(ArgTy(sig.inputs[i]), captured);
    }
  }

  /** The rewriting is sound exactly for the parameters it can rewrite. */
  lemma SoundIff(sig: Signature, bounds: seq<Bound>, traitTypes: seq<string>, storage: string)
    requires Scoped(sig, bounds)
    ensures (forall sc, args :: Fits(DynSignature(sig, bounds, traitTypes, storage), sc, args) ==>
              Fits(sig, sc, args) && CapturedOutlive(sig, bounds, traitTypes, sc, args))
            <==> Rewritable(sig, bounds)
  {
    hide *;
    if Rewritable(sig, bounds) {
      forall sc, args | Fits(DynSignature(sig, bounds, traitTypes, storage), sc, args)
        ensures Fits(sig, sc, args) && CapturedOutlive(sig, bounds, traitTypes, sc, args)
      {
        Sound(sig, bounds, traitTypes, storage, sc, args);
      }
    } else {
      var sc, args := Unsound(sig, bounds, traitTypes, storage);
    }
  }

  // ----- completeness -----

  /** A type names one of the lifetimes, possibly inside a `Fn`. */
  predicate Mentions(ty: Ty, names: set<Lt>) {
    match ty
    case Path(_, lts, _, args, _) =>
      (exists i :: 0 <= i < |lts| && lts[i] in names) || exists i :: 0 <= i < |args| && Mentions(args[i], names)
    case Ref(lt, _, to) => lt in names || Mentions(to, names)
    case Fn(params, ret) => (exists i :: 0 <= i < |params| && Mentions(params[i], names)) || Mentions(ret, names)
  }

  /** Each of the lifetimes is at covariant positions only of a type used at variance `v`. */
  predicate NamedCo(ty: Ty, names: set<Lt>, v: Variance) {
    match ty
    case Path(_, lts, lv, args, av) =>
      (forall i :: 0 <= i < |lts| && lts[i] in names ==> Compose(v, lv) == Co)
      && forall i :: 0 <= i < |args| ==> NamedCo(args[i], names, Compose(v, av))
    case Ref(lt, m, to) => (lt in names ==> v == Co) && NamedCo(to, names, if m then Inv else v)
    case Fn(params, ret) =>
      (forall i :: 0 <= i < |params| ==> NamedCo(params[i], names, Flip(v))) && NamedCo(ret, names, v)
  }

  /** A lifetime that shrinks, elided or in `shrunk`, is behind a reference whose lifetime does not. */
  predicate Stuck(ty: Ty, shrunk: set<Lt>) {
    match ty
    case Path(_, _, _, args, _) => exists i :: 0 <= i < |args| && Stuck(args[i], shrunk)
    case Ref(lt, _, to) =>
      (!Elided(lt) && lt !in shrunk && (Visible(to) || Mentions(to, shrunk))) || Stuck(to, shrunk)
    case Fn(_, _) => false
  }

  /** A parameter whose elided lifetimes can all shrink to one, together with `shrunk`. */
  predicate Shrinks(ty: Ty, shrunk: set<Lt>) {
    Covariant(ty, Co) && NamedCo(ty, shrunk, Co) && !Stuck(ty, shrunk)
  }

  /** With a lifetime, the set has all that it must outlive by the declared bounds. */
  predicate Closed(sig: Signature, lts: set<Lt>) {
    (forall g :: g in sig.generics && g.LtParam? && g.lt in lts ==> forall l :: l in g.bounds ==> l in lts)
    && forall p :: p in sig.preds && p.LtOutlives? && p.sub in lts ==> p.lt in lts
  }

  /** The elided lifetimes of all parameters can shrink to one, together with the named ones of
      `shrunk`: these include every lifetime that one of them must outlive. */
  predicate Shrinkable(sig: Signature, shrunk: set<Lt>) {
    shrunk <= Names(sig.generics) - {Named("static")} && Closed(sig, shrunk)
    && forall i :: 0 <= i < |sig.inputs| ==> Shrinks(ArgTy(sig.inputs[i]), shrunk)
  }

  predicate NoFnElided(sig: Signature) {
    forall i :: 0 <= i < |sig.inputs| ==> !FnElided(ArgTy(sig.inputs[i]))
  }

  predicate CanShrink(sig: Signature, bounds: seq<Bound>, shrunk: set<Lt>) {
    if Underscore in Captured(bounds, sig.generics) then NoFnElided(sig) && Shrinkable(sig, shrunk) else shrunk == {}
  }

  /** No call is lost. */
  ghost predicate Keeps(sig: Signature, bounds: seq<Bound>) {
    exists shrunk :: CanShrink(sig, bounds, shrunk)
  }

  /** The named lifetimes of `shrunk` are chosen again, all as `'__dyn`, which is within them. */
  ghost predicate Shrinking(shrunk: set<Lt>, sc: Scope, sc': Scope) {
    sc'.types == sc.types && (forall l :: l in shrunk ==> l.Named? && l.name != "static" && sc'.dyn <= LtRegion(l, sc))
    && forall n :: sc'.named(n) == if Named(n) in shrunk then sc'.dyn else sc.named(n)
  }

  /** `s` with the region of `'__dyn` at every lifetime that shrinks. */
  ghost function Retarget(ty: Ty, s: Sem, shrunk: set<Lt>, sc: Scope): Sem
    requires AtVisible(ty, s, _ => true)
  {
    match ty
    case Path(n, lts, lv, args, av) =>
      SemPath(s.name,
              seq(|lts|, i requires 0 <= i < |lts| =>
                if lts[i] == Underscore || lts[i] in shrunk then In(sc.dyn) else s.lts[i]),
              s.ltVar, seq(|args|, i requires 0 <= i < |args| => Retarget(args[i], s.args[i], shrunk, sc)), s.argVar)
    case Ref(lt, m, to) =>
      SemRef(if Elided(lt) || lt in shrunk then In(sc.dyn) else s.lt, s.mut, Retarget(to, s.to, shrunk, sc))
    case Fn(_, _) => Uniform(ty, sc, Bound)
  }

  lemma {:induction false} Shaped(ty: Ty, s: Sem, sc: Scope)
    requires Inst(ty, s, sc)
    ensures AtVisible(ty, s, _ => true)
    decreases ty
  {
    match ty
    case Path(_, _, _, args, _) => forall i | 0 <= i < |args| { Shaped(args[i], s.args[i], sc); }
    case Ref(_, _, to) => Shaped(to, s.to, sc);
    case Fn(_, _) =>
  }

  // --- function types, whose elided lifetimes are their own

  lemma {:induction false} UniformSame(ty: Ty, shrunk: set<Lt>, sc: Scope, sc': Scope, elided: SemLt)
    requires Shrinking(shrunk, sc, sc') && NoDyn(ty) && !Mentions(ty, shrunk)
    ensures Uniform(ty, sc, elided) == Uniform(ty, sc', elided)
    decreases ty
  {
    match ty
    case Path(_, lts, _, args, _) =>
      forall i | 0 <= i < |args| { UniformSame(args[i], shrunk, sc, sc', elided); }
      assert forall i :: 0 <= i < |lts| ==> UniformLt(lts[i], sc, elided) == UniformLt(lts[i], sc', elided);
      assert Uniform(ty, sc, elided).lts == Uniform(ty, sc', elided).lts;
      assert Uniform(ty, sc, elided).args == Uniform(ty, sc', elided).args;
    case Ref(_, _, to) => UniformSame(to, shrunk, sc, sc', elided);
    case Fn(params, ret) =>
      forall i | 0 <= i < |params| { UniformSame(params[i], shrunk, sc, sc', Bound); }
      UniformSame(ret, shrunk, sc, sc', Bound);
      assert Uniform(ty, sc, elided).params == Uniform(ty, sc', elided).params;
  }

  lemma {:induction false} UniformSub(ty: Ty, shrunk: set<Lt>, sc: Scope, sc': Scope, elided: SemLt, v: Variance)
    requires Shrinking(shrunk, sc, sc') && NoDyn(ty) && NamedCo(ty, shrunk, v)
    ensures Sub(Uniform(ty, sc, elided), Uniform(ty, sc', elided), v)
    decreases ty
  {
    match ty
    case Path(_, lts, lv, args, av) =>
      forall i | 0 <= i < |args| { UniformSub(args[i], shrunk, sc, sc', elided, Compose(v, av)); }
      forall i | 0 <= i < |lts|
        ensures SubLt(UniformLt(lts[i], sc, elided), UniformLt(lts[i], sc', elided), Compose(v, lv)) {}
    case Ref(_, m, to) => UniformSub(to, shrunk, sc, sc', elided, if m then Inv else v);
    case Fn(params, ret) =>
      forall i | 0 <= i < |params| { UniformSub(params[i], shrunk, sc, sc', Bound, Flip(v)); }
      UniformSub(ret, shrunk, sc, sc', Bound, v);
  }

  lemma {:induction false} UniformBehind(ty: Ty, shrunk: set<Lt>, sc: Scope, sc': Scope, r: Region)
    requires Shrinking(shrunk, sc, sc') && NoDyn(ty) && Outlives(Uniform(ty, sc, Bound), r, sc) && sc'.dyn <= r
    ensures Outlives(Uniform(ty, sc', Bound), sc'.dyn, sc')
    decreases ty
  {
    match ty
    case Path(_, lts, _, args, _) =>
      forall i | 0 <= i < |args| ensures Outlives(Uniform(ty, sc', Bound).args[i], sc'.dyn, sc') {
        assert Uniform(ty, sc, Bound).args[i] == Uniform(args[i], sc, Bound);
        UniformBehind(args[i], shrunk, sc, sc', r);
      }
      forall i | 0 <= i < |lts| && !Elided(lts[i]) ensures sc'.dyn <= LtRegion(lts[i], sc') {
        assert Uniform(ty, sc, Bound).lts[i] == In(LtRegion(lts[i], sc));
      }
    case Ref(_, _, to) => UniformBehind(to, shrunk, sc, sc', r);
    case Fn(params, ret) =>
      forall i | 0 <= i < |params| ensures Outlives(Uniform(ty, sc', Bound).params[i], sc'.dyn, sc') {
        assert Uniform(ty, sc, Bound).params[i] == Uniform(params[i], sc, Bound);
        UniformBehind(params[i], shrunk, sc, sc', r);
      }
      UniformBehind(ret, shrunk, sc, sc', r);
  }

  // --- types

  lemma {:induction false} RetargetSame(ty: Ty, s: Sem, shrunk: set<Lt>, sc: Scope, sc': Scope)
    requires Inst(ty, s, sc) && AtVisible(ty, s, _ => true) && Shrinking(shrunk, sc, sc') && NoDyn(ty)
    requires !Visible(ty) && !Mentions(ty, shrunk)
    ensures Retarget(ty, s, shrunk, sc') == s
    decreases ty
  {
    match ty
    case Path(_, lts, _, args, _) =>
      forall i | 0 <= i < |args| { RetargetSame(args[i], s.args[i], shrunk, sc, sc'); }
      assert Retarget(ty, s, shrunk, sc').lts == s.lts && Retarget(ty, s, shrunk, sc').args == s.args;
    case Ref(_, _, to) => RetargetSame(to, s.to, shrunk, sc, sc');
    case Fn(_, _) => UniformSame(ty, shrunk, sc, sc', Bound);
  }

  lemma {:induction false} RetargetInst(ty: Ty, captured: set<Lt>, s: Sem, shrunk: set<Lt>, sc: Scope, sc': Scope)
    requires Inst(ty, s, sc) && AtVisible(ty, s, _ => true) && Shrinking(shrunk, sc, sc') && NoDyn(ty)
    requires Underscore in captured && !FnElided(ty)
    ensures Inst(Rewrite(ty, captured), Retarget(ty, s, shrunk, sc'), sc')
    decreases ty
  {
    match ty
    case Path(_, _, _, args, _) =>
      forall i | 0 <= i < |args| { RetargetInst(args[i], captured, s.args[i], shrunk, sc, sc'); }
    case Ref(_, _, to) => RetargetInst(to, captured, s.to, shrunk, sc, sc');
    case Fn(_, _) => UniformRewrite(ty, captured, sc', Bound);
  }

  /** At covariant positions a smaller region does. */
  lemma {:induction false} RetargetSub(ty: Ty, s: Sem, shrunk: set<Lt>, sc: Scope, sc': Scope, v: Variance)
    requires Inst(ty, s, sc) && AtVisible(ty, s, _ => true) && AtVisible(ty, s, r => sc'.dyn <= r)
    requires Shrinking(shrunk, sc, sc') && NoDyn(ty) && Covariant(ty, v) && NamedCo(ty, shrunk, v)
    ensures Sub(s, Retarget(ty, s, shrunk, sc'), v)
    decreases ty
  {
    match ty
    case Path(_, lts, lv, args, av) =>
      forall i | 0 <= i < |args| { RetargetSub(args[i], s.args[i], shrunk, sc, sc', Compose(v, av)); }
      forall i | 0 <= i < |lts|
        ensures SubLt(s.lts[i], Retarget(ty, s, shrunk, sc').lts[i], Compose(v, lv)) {}
    case Ref(_, m, to) => RetargetSub(to, s.to, shrunk, sc, sc', if m then Inv else v);
    case Fn(_, _) => UniformSub(ty, shrunk, sc, sc', Bound, v);
  }

  lemma {:induction false} RetargetOutlives(ty: Ty, s: Sem, shrunk: set<Lt>, sc: Scope, sc': Scope, r: Region)
    requires Inst(ty, s, sc) && AtVisible(ty, s, _ => true) && Shrinking(shrunk, sc, sc') && NoDyn(ty)
    requires Outlives(s, r, sc) && sc'.dyn <= r
    ensures Outlives(Retarget(ty, s, shrunk, sc'), sc'.dyn, sc')
    decreases ty
  {
    match ty
    case Path(_, _, _, args, _) =>
      forall i | 0 <= i < |args| { RetargetOutlives(args[i], s.args[i], shrunk, sc, sc', r); }
    case Ref(_, _, to) => RetargetOutlives(to, s.to, shrunk, sc, sc', r);
    case Fn(_, _) => UniformBehind(ty, shrunk, sc, sc', r);
  }

  lemma {:induction false} OutlivesLess(s: Sem, sc: Scope, sc': Scope, r: Region, d: Region)
    requires sc'.types == sc.types && Outlives(s, r, sc) && d <= r
    ensures Outlives(s, d, sc')
    decreases s
  {
    match s
    case SemPath(_, _, _, args, _) => forall i | 0 <= i < |args| { OutlivesLess(args[i], sc, sc', r, d); }
    case SemRef(_, _, to) => OutlivesLess(to, sc, sc', r, d);
    case SemFn(params, ret) =>
      forall i | 0 <= i < |params| { OutlivesLess(params[i], sc, sc', r, d); }
      OutlivesLess(ret, sc, sc', r, d);
  }

  lemma {:induction false} WellFormedSame(s: Sem, sc: Scope, sc': Scope)
    requires sc'.types == sc.types && WellFormed(s, sc)
    ensures WellFormed(s, sc')
    decreases s
  {
    match s
    case SemPath(_, _, _, args, _) => forall i | 0 <= i < |args| { WellFormedSame(args[i], sc, sc'); }
    case SemRef(lt, _, to) =>
      WellFormedSame(to, sc, sc');
      if lt.In? { OutlivesLess(to, sc, sc', lt.region, lt.region); }
    case SemFn(_, _) =>
  }

  lemma {:induction false} RetargetWellFormed(ty: Ty, s: Sem, shrunk: set<Lt>, sc: Scope, sc': Scope)
    requires Inst(ty, s, sc) && AtVisible(ty, s, _ => true) && AtVisible(ty, s, r => sc'.dyn <= r)
    requires Shrinking(shrunk, sc, sc') && NoDyn(ty) && WellFormed(s, sc) && !Stuck(ty, shrunk)
    ensures WellFormed(Retarget(ty, s, shrunk, sc'), sc')
    decreases ty
  {
    match ty
    case Path(_, _, _, args, _) =>
      forall i | 0 <= i < |args| { RetargetWellFormed(args[i], s.args[i], shrunk, sc, sc'); }
    case Ref(lt, _, to) =>
      RetargetWellFormed(to, s.to, shrunk, sc, sc');
      if Elided(lt) || lt in shrunk {
        RetargetOutlives(to, s.to, shrunk, sc, sc', s.lt.region);
      } else {
        RetargetSame(to, s.to, shrunk, sc, sc');
        OutlivesLess(s.to, sc, sc', s.lt.region, s.lt.region);
      }
    case Fn(_, _) =>
  }

  lemma {:induction false} InstSame(ty: Ty, s: Sem, sc: Scope, sc': Scope)
    requires Inst(ty, s, sc) && Shrinking({}, sc, sc') && NoDyn(ty)
    ensures Inst(ty, s, sc')
    decreases ty
  {
    match ty
    case Path(_, _, _, args, _) => forall i | 0 <= i < |args| { InstSame(args[i], s.args[i], sc, sc'); }
    case Ref(_, _, to) => InstSame(to, s.to, sc, sc');
    case Fn(_, _) => NoMention(ty); UniformSame(ty, {}, sc, sc', Bound);
  }

  lemma {:induction false} NoMention(ty: Ty)
    ensures !Mentions(ty, {})
    decreases ty
  {
    match ty
    case Path(_, _, _, args, _) => forall i | 0 <= i < |args| { NoMention(args[i]); }
    case Ref(_, _, to) => NoMention(to);
    case Fn(params, ret) =>
      forall i | 0 <= i < |params| { NoMention(params[i]); }
      NoMention(ret);
  }

  // --- calls

  /** The lifetimes that shrink include those that they must outlive, so the declared bounds still hold. */
  lemma DeclaredSame(sig: Signature, bounds: seq<Bound>, shrunk: set<Lt>, sc: Scope, sc': Scope)
    requires Scoped(sig, bounds) && Shrinking(shrunk, sc, sc') && (shrunk == {} || Shrinkable(sig, shrunk))
    requires BoundsHold(sig.generics, sc) && forall p :: p in sig.preds ==> PredHolds(p, sc)
    ensures BoundsHold(sig.generics, sc') && forall p :: p in sig.preds ==> PredHolds(p, sc')
  {
    hide Declared, NoDyn, Shrinks;
    forall g | g in sig.generics ensures BoundHolds(g, sc') {
      assert BoundHolds(g, sc) && forall k :: 0 <= k < |g.bounds| ==> g.bounds[k] in g.bounds;
      assert forall l :: l in g.bounds ==> l.Named?;
    }
    forall p | p in sig.preds ensures PredHolds(p, sc') { assert PredHolds(p, sc); }
  }

  /** The call `args` of the original method can be made through the generated one: some call of
      the latter takes those arguments. */
  ghost predicate Usable(sig: Signature, bounds: seq<Bound>, traitTypes: seq<string>, storage: string, sc: Scope,
                         args: seq<Sem>) {
    exists now :: Fits(DynSignature(sig, bounds, traitTypes, storage), sc, now) && AllSub(args, now)
  }

  ghost predicate AllSub(args: seq<Sem>, now: seq<Sem>) {
    |args| == |now| && forall i :: 0 <= i < |args| ==> Sub(args[i], now[i], Co)
  }

  /** `'__dyn` is within every captured lifetime, `Self`, the type parameters and the elided
      lifetimes that are rewritten. */
  ghost predicate Within(sig: Signature, bounds: seq<Bound>, traitTypes: seq<string>, sc: Scope, args: seq<Sem>) {
    var captured := Captured(bounds, sig.generics);
    |args| == |sig.inputs|
    && (forall l :: l in captured && !Elided(l) ==> sc.dyn <= LtRegion(l, sc))
    && sc.dyn <= sc.types(SELF)
    && (forall t :: t in traitTypes ==> sc.dyn <= sc.types([t]))
    && (Underscore in captured ==> forall i :: 0 <= i < |args| ==>
      AtVisible(ArgTy(sig.inputs[i]), args[i], r => sc.dyn <= r))
  }

  lemma ShrunkArg(ty: Ty, captured: set<Lt>, s: Sem, shrunk: set<Lt>, sc: Scope, sc': Scope) returns (now: Sem)
    requires Inst(ty, s, sc) && WellFormed(s, sc) && Shrinking(shrunk, sc, sc') && NoDyn(ty)
    requires if Underscore in captured then !FnElided(ty) && Shrinks(ty, shrunk) && AtVisible(ty, s, r => sc'.dyn <= r)
             else shrunk == {}
    ensures Inst(Rewrite(ty, captured), now, sc') && WellFormed(now, sc') && Sub(s, now, Co)
  {
    hide Inst, WellFormed, Sub, Covariant, NamedCo, Stuck, AtVisible, Rewrite, Retarget, FnElided, NoDyn, Shrinking;
    if Underscore in captured {
      Shaped(ty, s, sc);
      now := Retarget(ty, s, shrunk, sc');
      RetargetInst(ty, captured, s, shrunk, sc, sc');
      RetargetSub(ty, s, shrunk, sc, sc', Co);
      RetargetWellFormed(ty, s, shrunk, sc, sc');
    } else {
      now := s;
      InstSame(ty, s, sc, sc');
      RewriteInst(ty, captured, s, sc');
      SameTypes(shrunk, sc, sc');
      WellFormedSame(s, sc, sc');
      SubRefl(s, Co);
    }
  }

  lemma SameTypes(shrunk: set<Lt>, sc: Scope, sc': Scope)
    requires Shrinking(shrunk, sc, sc')
    ensures sc'.types == sc.types
  {}

  /** Every call of the original method extends to the generated one, the named lifetimes as they are
      but for those of `shrunk`, with any region for `'__dyn` within the captured ones. */
  lemma Complete(sig: Signature, bounds: seq<Bound>, traitTypes: seq<string>, storage: string, shrunk: set<Lt>,
                 sc: Scope, sc': Scope, args: seq<Sem>)
    requires Scoped(sig, bounds) && CanShrink(sig, bounds, shrunk)
    requires Fits(sig, sc, args) && Shrinking(shrunk, sc, sc') && Within(sig, bounds, traitTypes, sc', args)
    ensures Usable(sig, bounds, traitTypes, storage, sc', args)
  {
    hide Inst, WellFormed, BoundsHold, PredHolds, Captured, FirstPrecise, DynSignature, Declared, Names, FnElided,
         AtVisible, Sub, Shrinks, NoDyn, Shrinking;
    var captured := Captured(bounds, sig.generics);
    DeclaredSame(sig, bounds, shrunk, sc, sc');
    DynGenericsHold(sig, bounds, traitTypes, storage, sc');
    DynPredsHold(sig, bounds, traitTypes, storage, sc');
    var d := DynSignature(sig, bounds, traitTypes, storage);
    var now: seq<Sem> := [];
    while |now| < |args|
      invariant |now| <= |args|
      invariant forall i :: 0 <= i < |now| ==>
        Inst(Rewrite(ArgTy(sig.inputs[i]), captured), now[i], sc') && WellFormed(now[i], sc')
          && Sub(args[i], now[i], Co)
    {
      var arg := ShrunkArg(ArgTy(sig.inputs[|now|]), captured, args[|now|], shrunk, sc, sc');
      now := now + [arg];
    }
    if |args| > 0 { DynArgFits(sig, bounds, traitTypes, storage, 0); }
      else { NoInputs(sig, bounds, traitTypes, storage); }
    forall i | 0 <= i < |now| { DynArgFits(sig, bounds, traitTypes, storage, i); }
    assert Fits(d, sc', now) && AllSub(args, now);
  }

  // ----- the conditions are needed -----

  /** A receiver whose lifetime is elided: `&self`, `&mut self` or `Pin<&mut Self>`. */
  predicate ElidedReceiver(a: Arg) {
    match a
    case Receiver(Some(lt), _, _) => Elided(lt)
    case Receiver(None, _, ty) => PinnedRef(ty).Some? && |ty.args| == 1 && ty.argVar == Co && Elided(ty.args[0].lt)
    case Typed(_, _) => false
  }

  ghost function ReceiverSem(a: Arg, r: Region): Sem
    requires ElidedReceiver(a)
  {
    var self := SemPath(SELF, [], Co, [], Co);
    match a
    case Receiver(Some(_), m, _) => SemRef(In(r), m, self)
    case Receiver(None, _, ty) => SemPath(ty.name, [], ty.ltVar, [SemRef(In(r), ty.args[0].mut, self)], Co)
  }

  lemma ReceiverFits(a: Arg, r: Region)
    requires ElidedReceiver(a)
    ensures Inst(ArgTy(a), ReceiverSem(a, r), EVERYTHING) && WellFormed(ReceiverSem(a, r), EVERYTHING)
  {}

  lemma ReceiverShrinks(a: Arg, shrunk: set<Lt>)
    requires ElidedReceiver(a) && forall l :: l in shrunk ==> l.Named?
    ensures Shrinks(ArgTy(a), shrunk) && !FnElided(ArgTy(a))
  {
    assert !Stuck(SELF_TY, shrunk) && NamedCo(SELF_TY, shrunk, Co) && NamedCo(SELF_TY, shrunk, Inv);
    assert !FnElided(SELF_TY);
    match a
    case Receiver(Some(_), _, _) =>
    case Receiver(None, _, ty) =>
      assert ty.args == [ty.args[0]] && ty.args[0].to == SELF_TY;
      assert !Stuck(ty.args[0], shrunk) && NamedCo(ty.args[0], shrunk, Co) && !FnElided(ty.args[0]);
  }

  lemma ReceiverNarrow(a: Arg, captured: set<Lt>, r: Region, now: Sem, sc: Scope)
    requires ElidedReceiver(a) && Underscore in captured
    requires Inst(Rewrite(ArgTy(a), captured), now, sc) && Sub(ReceiverSem(a, r), now, Co)
    ensures sc.dyn <= r
  {
    match a
    case Receiver(Some(_), _, _) =>
    case Receiver(None, _, ty) =>
      assert Inst(Rewrite(ty, captured).args[0], now.args[0], sc) && Sub(ReceiverSem(a, r).args[0], now.args[0], Co);
      assert Rewrite(ty.args[0], captured).lt == Dyn;
  }

  lemma {:induction false} WidestVisible(ty: Ty, x: Region)
    ensures AtVisible(ty, Widest(ty, x), r => r == EVERYWHERE)
    decreases ty
  {
    match ty
    case Path(_, _, _, args, _) => forall i | 0 <= i < |args| { WidestVisible(args[i], x); }
    case Ref(_, _, to) => WidestVisible(to, EVERYWHERE);
    case Fn(_, _) =>
  }

  /** At a position that is not covariant the region cannot shrink. */
  lemma {:induction false} NotCovariant(ty: Ty, captured: set<Lt>, s: Sem, now: Sem, sc: Scope, v: Variance)
    requires Underscore in captured && AtVisible(ty, s, r => r == EVERYWHERE)
    requires Inst(Rewrite(ty, captured), now, sc) && Sub(s, now, v) && !Covariant(ty, v)
    ensures EVERYWHERE <= sc.dyn
    decreases ty
  {
    match ty
    case Path(_, lts, lv, args, av) =>
      if Underscore in lts && Compose(v, lv) != Co {
        var i :| 0 <= i < |lts| && lts[i] == Underscore;
        assert SubLt(s.lts[i], now.lts[i], Compose(v, lv)) && now.lts[i] == In(sc.dyn);
      } else {
        var i :| 0 <= i < |args| && !Covariant(args[i], Compose(v, av));
        NotCovariant(args[i], captured, s.args[i], now.args[i], sc, Compose(v, av));
      }
    case Ref(lt, m, to) =>
      if Elided(lt) && v != Co {
        assert SubLt(s.lt, now.lt, v);
      } else {
        NotCovariant(to, captured, s.to, now.to, sc, if m then Inv else v);
      }
    case Fn(_, _) =>
  }

  /** None of the lifetimes outlives `r`. */
  ghost predicate NoneAbove(names: set<Lt>, r: Region, sc: Scope) {
    forall l :: l in names ==> l.Named? && !(r <= LtRegion(l, sc))
  }

  /** Inside a `Fn`, lifetimes shrink at covariant positions only, and none is elided and rewritten. */
  lemma {:induction false} UniformShrank(ty: Ty, captured: set<Lt>, small: set<Lt>, sc: Scope, v: Variance)
    requires Underscore in captured && NoneAbove(small, EVERYWHERE, sc)
    requires Sub(Uniform(ty, EVERYTHING, Bound), Uniform(Rewrite(ty, captured), sc, Bound), v)
    ensures NamedCo(ty, small, v) && !Visible(ty) && !FnElided(ty)
    decreases ty
  {
    var was, now := Uniform(ty, EVERYTHING, Bound), Uniform(Rewrite(ty, captured), sc, Bound);
    match ty
    case Path(_, lts, lv, args, av) =>
      forall i | 0 <= i < |args|
        ensures NamedCo(args[i], small, Compose(v, av)) && !Visible(args[i]) && !FnElided(args[i])
      {
        assert Sub(was.args[i], now.args[i], Compose(v, av));
        UniformShrank(args[i], captured, small, sc, Compose(v, av));
      }
      forall i | 0 <= i < |lts| ensures lts[i] != Underscore && (lts[i] in small ==> Compose(v, lv) == Co) {
        assert SubLt(was.lts[i], now.lts[i], Compose(v, lv));
      }
    case Ref(_, m, to) => UniformShrank(to, captured, small, sc, if m then Inv else v);
    case Fn(params, ret) =>
      forall i | 0 <= i < |params|
        ensures NamedCo(params[i], small, Flip(v)) && !Visible(params[i]) && !FnElided(params[i])
      {
        assert Sub(was.params[i], now.params[i], Flip(v));
        UniformShrank(params[i], captured, small, sc, Flip(v));
      }
      UniformShrank(ret, captured, small, sc, v);
  }

  /** So it is with all lifetimes. */
  lemma {:induction false} Shrank(ty: Ty, captured: set<Lt>, s: Sem, now: Sem, small: set<Lt>, sc: Scope, v: Variance)
    requires Underscore in captured && NoneAbove(small, EVERYWHERE, sc)
    requires Inst(ty, s, EVERYTHING) && Inst(Rewrite(ty, captured), now, sc) && Sub(s, now, v)
    ensures NamedCo(ty, small, v) && !FnElided(ty)
    decreases ty
  {
    match ty
    case Path(_, lts, lv, args, av) =>
      forall i | 0 <= i < |args| ensures NamedCo(args[i], small, Compose(v, av)) && !FnElided(args[i]) {
        Shrank(args[i], captured, s.args[i], now.args[i], small, sc, Compose(v, av));
      }
      forall i | 0 <= i < |lts| && lts[i] in small ensures Compose(v, lv) == Co {
        assert SubLt(s.lts[i], now.lts[i], Compose(v, lv)) && now.lts[i] == In(LtRegion(lts[i], sc));
      }
    case Ref(_, m, to) => Shrank(to, captured, s.to, now.to, small, sc, if m then Inv else v);
    case Fn(_, _) => UniformShrank(ty, captured, small, sc, v);
  }

  lemma {:induction false} UniformAbove(ty: Ty, captured: set<Lt>, names: set<Lt>, r: Region, sc: Scope)
    requires NoneAbove(names, r, sc) && Outlives(Uniform(Rewrite(ty, captured), sc, Bound), r, sc)
    ensures !Mentions(ty, names)
    decreases ty
  {
    var now := Uniform(Rewrite(ty, captured), sc, Bound);
    match ty
    case Path(_, lts, _, args, _) =>
      forall i | 0 <= i < |args| ensures !Mentions(args[i], names) {
        assert Outlives(now.args[i], r, sc);
        UniformAbove(args[i], captured, names, r, sc);
      }
      forall i | 0 <= i < |lts| ensures lts[i] !in names {
        assert lts[i].Named? ==> now.lts[i] == In(LtRegion(lts[i], sc));
      }
    case Ref(_, _, to) => UniformAbove(to, captured, names, r, sc);
    case Fn(params, ret) =>
      forall i | 0 <= i < |params| ensures !Mentions(params[i], names) {
        assert Outlives(now.params[i], r, sc);
        UniformAbove(params[i], captured, names, r, sc);
      }
      UniformAbove(ret, captured, names, r, sc);
  }

  /** What outlives `r` names only lifetimes that do. */
  lemma {:induction false} NamesAbove(ty: Ty, captured: set<Lt>, now: Sem, names: set<Lt>, r: Region, sc: Scope)
    requires NoneAbove(names, r, sc) && Inst(Rewrite(ty, captured), now, sc) && Outlives(now, r, sc)
    ensures !Mentions(ty, names) && (Underscore in captured && !(r <= sc.dyn) ==> !Visible(ty))
    decreases ty
  {
    match ty
    case Path(_, lts, _, args, _) =>
      forall i | 0 <= i < |args|
        ensures !Mentions(args[i], names) && (Underscore in captured && !(r <= sc.dyn) ==> !Visible(args[i]))
      {
        NamesAbove(args[i], captured, now.args[i], names, r, sc);
      }
      forall i | 0 <= i < |lts|
        ensures lts[i] !in names && (Underscore in captured && !(r <= sc.dyn) ==> lts[i] != Underscore)
      {
        assert LtInst(RewriteLt(lts[i], captured), now.lts[i], sc);
      }
    case Ref(_, _, to) => NamesAbove(to, captured, now.to, names, r, sc);
    case Fn(_, _) => UniformAbove(ty, captured, names, r, sc);
  }

  /** Well-formedness shrinks every reference over something that shrinks. */
  lemma {:induction false} NotStuck(ty: Ty, captured: set<Lt>, now: Sem, names: set<Lt>, small: set<Lt>, sc: Scope)
    requires Underscore in captured && NoneAbove(small, EVERYWHERE, sc) && !(EVERYWHERE <= sc.dyn)
    requires Declared(ty, names) && forall l :: l in names && l !in small ==> EVERYWHERE <= LtRegion(l, sc)
    requires Inst(Rewrite(ty, captured), now, sc) && WellFormed(now, sc) && NoDyn(ty)
    ensures !Stuck(ty, small)
    decreases ty
  {
    match ty
    case Path(_, _, _, args, _) =>
      forall i | 0 <= i < |args| ensures !Stuck(args[i], small) {
        NotStuck(args[i], captured, now.args[i], names, small, sc);
      }
    case Ref(lt, _, to) =>
      NotStuck(to, captured, now.to, names, small, sc);
      if !Elided(lt) && lt !in small {
        OutlivesLess(now.to, sc, sc, LtRegion(lt, sc), EVERYWHERE);
        NamesAbove(to, captured, now.to, small, EVERYWHERE, sc);
      }
    case Fn(_, _) =>
  }

  /** A call whose receiver lives at one point only, everything else being everywhere. */
  ghost function NarrowCall(sig: Signature): (r: seq<Sem>)
    requires |sig.inputs| > 0 && ElidedReceiver(sig.inputs[0])
    ensures |r| == |sig.inputs|
  {
    WidestCall(sig, EVERYWHERE)[0 := ReceiverSem(sig.inputs[0], iset{HERE})]
  }

  lemma NarrowCallFits(sig: Signature)
    requires |sig.inputs| > 0 && ElidedReceiver(sig.inputs[0])
    ensures Fits(sig, EVERYTHING, NarrowCall(sig))
  {
    hide Inst, WellFormed, BoundsHold, PredHolds, ElidedReceiver;
    EverythingHolds(sig.generics, sig.preds);
    ReceiverFits(sig.inputs[0], iset{HERE});
    forall i | 0 <= i < |sig.inputs| { WidestFits(ArgTy(sig.inputs[i]), EVERYWHERE); }
  }

  /** The declared lifetimes that do not outlive `r` in a call. */
  ghost function Under(sig: Signature, r: Region, sc: Scope): set<Lt> {
    set l | l in Names(sig.generics) && !(r <= LtRegion(l, sc))
  }

  /** What a parameter must be for the call to extend to it. */
  lemma ArgShrank(sig: Signature, bounds: seq<Bound>, i: nat, now: Sem, sc: Scope)
    requires Scoped(sig, bounds) && |sig.inputs| > 0 && ElidedReceiver(sig.inputs[0]) && i < |sig.inputs|
    requires Underscore in Captured(bounds, sig.generics) && !(EVERYWHERE <= sc.dyn)
    requires Inst(Rewrite(ArgTy(sig.inputs[i]), Captured(bounds, sig.generics)), now, sc) && WellFormed(now, sc)
    requires Sub(NarrowCall(sig)[i], now, Co)
    ensures Shrinks(ArgTy(sig.inputs[i]), Under(sig, EVERYWHERE, sc)) && !FnElided(ArgTy(sig.inputs[i]))
  {
    hide Inst, WellFormed, Captured, FirstPrecise, Declared, FnElided, AtVisible, Sub, Covariant, NamedCo, Stuck, NoDyn,
         ReceiverSem, ElidedReceiver, Widest;
    var ty, captured, small := ArgTy(sig.inputs[i]), Captured(bounds, sig.generics), Under(sig, EVERYWHERE, sc);
    if i == 0 {
      ReceiverShrinks(sig.inputs[0], small);
    } else {
      WidestFits(ty, EVERYWHERE);
      Shrank(ty, captured, Widest(ty, EVERYWHERE), now, small, sc, Co);
      WidestVisible(ty, EVERYWHERE);
      if !Covariant(ty, Co) {
        NotCovariant(ty, captured, Widest(ty, EVERYWHERE), now, sc, Co);
      }
      NotStuck(ty, captured, now, Names(sig.generics), small, sc);
    }
  }

  /** Lifetimes that such a one must outlive are such. */
  lemma UnderClosed(sig: Signature, bounds: seq<Bound>, r: Region, sc: Scope)
    requires Scoped(sig, bounds) && BoundsHold(sig.generics, sc) && forall p :: p in sig.preds ==> PredHolds(p, sc)
    ensures Under(sig, r, sc) <= Names(sig.generics) - {Named("static")} && Closed(sig, Under(sig, r, sc))
  {
    hide Declared, NoDyn;
    forall g, l | g in sig.generics && g.LtParam? && g.lt in Under(sig, r, sc) && l in g.bounds
      ensures l in Under(sig, r, sc)
    {
      assert BoundHolds(g, sc);
    }
    forall p | p in sig.preds && p.LtOutlives? && p.sub in Under(sig, r, sc) ensures p.lt in Under(sig, r, sc) {
      assert PredHolds(p, sc);
    }
  }

  /** If the narrow call extends, the lifetimes chosen small in it can shrink. */
  lemma UsableShrinks(sig: Signature, bounds: seq<Bound>, traitTypes: seq<string>, storage: string, sc: Scope,
                      now: seq<Sem>)
    requires Scoped(sig, bounds) && |sig.inputs| > 0 && ElidedReceiver(sig.inputs[0])
    requires Underscore in Captured(bounds, sig.generics)
    requires Fits(DynSignature(sig, bounds, traitTypes, storage), sc, now) && AllSub(NarrowCall(sig), now)
    ensures CanShrink(sig, bounds, Under(sig, EVERYWHERE, sc))
  {
    hide Inst, WellFormed, BoundsHold, PredHolds, Captured, FirstPrecise, DynSignature, Declared, Names, FnElided,
         AtVisible, Sub, Shrinks, NoDyn, ReceiverSem, ElidedReceiver, Under, NarrowCall;
    var captured := Captured(bounds, sig.generics);
    assert 1 in EVERYWHERE && 1 !in iset{HERE};
    NarrowReceiver(sig);
    DynArgFits(sig, bounds, traitTypes, storage, 0);
    ReceiverNarrow(sig.inputs[0], captured, iset{HERE}, now[0], sc);
    forall i | 0 <= i < |sig.inputs|
      ensures Shrinks(ArgTy(sig.inputs[i]), Under(sig, EVERYWHERE, sc)) && !FnElided(ArgTy(sig.inputs[i]))
    {
      DynArgFits(sig, bounds, traitTypes, storage, i);
      ArgShrank(sig, bounds, i, now[i], sc);
    }
    DynGenericsHold(sig, bounds, traitTypes, storage, sc);
    DynPredsHold(sig, bounds, traitTypes, storage, sc);
    UnderClosed(sig, bounds, EVERYWHERE, sc);
  }

  /** Otherwise the narrow call extends for no choice of regions at all. */
  lemma NeverUsable(sig: Signature, bounds: seq<Bound>, traitTypes: seq<string>, storage: string, sc: Scope)
    requires Scoped(sig, bounds) && !Keeps(sig, bounds)
    requires |sig.inputs| > 0 && ElidedReceiver(sig.inputs[0])
    ensures !Usable(sig, bounds, traitTypes, storage, sc, NarrowCall(sig))
  {
    hide Scoped, Captured, DynSignature, Shrinkable, NoFnElided, ElidedReceiver, Fits, AllSub, NarrowCall, Under;
    NotCaptured(sig, bounds);
    forall now | Fits(DynSignature(sig, bounds, traitTypes, storage), sc, now) && AllSub(NarrowCall(sig), now)
      ensures false
    {
      UsableShrinks(sig, bounds, traitTypes, storage, sc, now);
    }
  }

  lemma NotCaptured(sig: Signature, bounds: seq<Bound>)
    ensures Underscore !in Captured(bounds, sig.generics) ==> CanShrink(sig, bounds, {})
  {}

  lemma NarrowReceiver(sig: Signature)
    requires |sig.inputs| > 0 && ElidedReceiver(sig.inputs[0])
    ensures NarrowCall(sig)[0] == ReceiverSem(sig.inputs[0], iset{HERE})
  {}

  /** The generated method takes every call of the original one, some named lifetimes being chosen again
      as `'__dyn`, exactly when the elided lifetimes of its parameters can shrink to one with those. */
  lemma CompleteIff(sig: Signature, bounds: seq<Bound>, traitTypes: seq<string>, storage: string)
    requires Scoped(sig, bounds) && |sig.inputs| > 0 && ElidedReceiver(sig.inputs[0])
    ensures (forall sc, args :: Fits(sig, sc, args) ==>
              exists sc': Scope :: sc'.types == sc.types && Usable(sig, bounds, traitTypes, storage, sc', args))
            <==> Keeps(sig, bounds)
  {
    hide *;
    if Keeps(sig, bounds) {
      var shrunk := Chosen(sig, bounds);
      forall sc, args | Fits(sig, sc, args)
        ensures exists sc': Scope :: sc'.types == sc.types && Usable(sig, bounds, traitTypes, storage, sc', args)
      {
        var sc' := Smallest(sig, bounds, traitTypes, shrunk, sc, args);
        SameTypes(shrunk, sc, sc');
        Complete(sig, bounds, traitTypes, storage, shrunk, sc, sc', args);
      }
    } else {
      NarrowCallFits(sig);
      forall sc': Scope | sc'.types == EVERYTHING.types { NeverUsable(sig, bounds, traitTypes, storage, sc'); }
    }
  }

  lemma Chosen(sig: Signature, bounds: seq<Bound>) returns (shrunk: set<Lt>)
    requires Keeps(sig, bounds)
    ensures CanShrink(sig, bounds, shrunk)
  {
    shrunk :| CanShrink(sig, bounds, shrunk);
  }

  /** `'__dyn` as small as can be. */
  lemma Smallest(sig: Signature, bounds: seq<Bound>, traitTypes: seq<string>, shrunk: set<Lt>, sc: Scope,
                 args: seq<Sem>)
    returns (sc': Scope)
    requires Fits(sig, sc, args) && Scoped(sig, bounds) && CanShrink(sig, bounds, shrunk)
    ensures Shrinking(shrunk, sc, sc') && Within(sig, bounds, traitTypes, sc', args)
  {
    hide Inst, WellFormed, BoundsHold, PredHolds, FirstPrecise, Captured, Declared, NoDyn, Shrinks, NoFnElided,
         AtVisible;
    sc' := Scope(n => if Named(n) in shrunk then iset{HERE} else sc.named(n), iset{HERE}, sc.types);
    forall i | 0 <= i < |args| ensures AtVisible(ArgTy(sig.inputs[i]), args[i], r => sc'.dyn <= r) {
      Shaped(ArgTy(sig.inputs[i]), args[i], sc);
      Anything(ArgTy(sig.inputs[i]), args[i], r => sc'.dyn <= r);
    }
  }

  lemma {:induction false} Anything(ty: Ty, s: Sem, p: Region -> bool)
    requires AtVisible(ty, s, _ => true) && forall r :: p(r)
    ensures AtVisible(ty, s, p)
    decreases ty
  {
    match ty
    case Path(_, _, _, args, _) => forall i | 0 <= i < |args| { Anything(args[i], s.args[i], p); }
    case Ref(_, _, to) => Anything(to, s.to, p);
    case Fn(_, _) =>
  }

  // ----- what is not captured -----

  /** A reference that outlives `'__dyn` is over none of the lifetimes: one that is not among them, or an
      elided one that is rewritten. */
  predicate Detached(ty: Ty, free: set<Lt>, rewritten: bool) {
    match ty
    case Path(_, _, _, args, _) => forall i :: 0 <= i < |args| ==> Detached(args[i], free, rewritten)
    case Ref(lt, _, to) =>
      ((if Elided(lt) then rewritten else lt !in free) ==> !Mentions(to, free)) && Detached(to, free, rewritten)
    case Fn(_, _) => true
  }

  /** Nothing asks the lifetimes of `free` to outlive `'__dyn`: they are not captured, need not outlive
      one that is outside the set, and are behind no reference that outlives `'__dyn`. */
  predicate MayEnd(sig: Signature, bounds: seq<Bound>, free: set<Lt>) {
    free <= Names(sig.generics) - {Named("static")} && Closed(sig, free)
    && (forall l :: l in free ==> !Captures(bounds, sig.generics, l))
    && forall i :: 0 <= i < |sig.inputs| ==>
         Detached(ArgTy(sig.inputs[i]), free, Captures(bounds, sig.generics, Underscore))
  }

  /** In a call of the generated method, the lifetimes that do not outlive `'__dyn` are such a set. */
  lemma EndedApart(sig: Signature, bounds: seq<Bound>, traitTypes: seq<string>, storage: string, sc: Scope,
                   args: seq<Sem>)
    requires Scoped(sig, bounds) && Fits(DynSignature(sig, bounds, traitTypes, storage), sc, args)
    ensures MayEnd(sig, bounds, Under(sig, sc.dyn, sc))
  {
    hide Inst, WellFormed, BoundsHold, PredHolds, Captured, Captures, FirstPrecise, DynSignature, Declared, Names,
         Detached, NoDyn, Under, Closed;
    var captured, free := Captured(bounds, sig.generics), Under(sig, sc.dyn, sc);
    DynGenericsHold(sig, bounds, traitTypes, storage, sc);
    DynPredsHold(sig, bounds, traitTypes, storage, sc);
    UnderClosed(sig, bounds, sc.dyn, sc);
    UnderIs(sig, bounds, sc.dyn, sc);
    CapturedIff(bounds, sig.generics, Underscore);
    forall l | l in free ensures !Captures(bounds, sig.generics, l) { CapturedIff(bounds, sig.generics, l); }
    SameInputs(sig, bounds, traitTypes, storage);
    forall i | 0 <= i < |sig.inputs| ensures Detached(ArgTy(sig.inputs[i]), free, Underscore in captured) {
      DynArgFits(sig, bounds, traitTypes, storage, i);
      NotAttached(ArgTy(sig.inputs[i]), captured, args[i], Names(sig.generics), free, sc);
    }
  }

  lemma UnderIs(sig: Signature, bounds: seq<Bound>, r: Region, sc: Scope)
    requires Scoped(sig, bounds)
    ensures NoneAbove(Under(sig, r, sc), r, sc)
    ensures forall l :: l in Names(sig.generics) && l !in Under(sig, r, sc) ==> r <= LtRegion(l, sc)
  {
    hide Declared, NoDyn;
    NamesNamed(sig, bounds);
  }

  lemma NamesNamed(sig: Signature, bounds: seq<Bound>)
    requires Scoped(sig, bounds)
    ensures forall l :: l in Names(sig.generics) ==> l.Named?
  {
    hide Declared, NoDyn;
  }

  lemma SameInputs(sig: Signature, bounds: seq<Bound>, traitTypes: seq<string>, storage: string)
    ensures |DynSignature(sig, bounds, traitTypes, storage).inputs| == |sig.inputs|
  {}

  lemma {:induction false} NotAttached(ty: Ty, captured: set<Lt>, now: Sem, names: set<Lt>, free: set<Lt>, sc: Scope)
    requires NoneAbove(free, sc.dyn, sc) && Declared(ty, names)
    requires forall l :: l in names && l !in free ==> sc.dyn <= LtRegion(l, sc)
    requires Inst(Rewrite(ty, captured), now, sc) && WellFormed(now, sc)
    ensures Detached(ty, free, Underscore in captured)
    decreases ty
  {
    match ty
    case Path(_, _, _, args, _) =>
      forall i | 0 <= i < |args| ensures Detached(args[i], free, Underscore in captured) {
        NotAttached(args[i], captured, now.args[i], names, free, sc);
      }
    case Ref(lt, _, to) =>
      NotAttached(to, captured, now.to, names, free, sc);
      if if Elided(lt) then Underscore in captured else lt !in free {
        OutlivesLess(now.to, sc, sc, now.lt.region, sc.dyn);
        NamesAbove(to, captured, now.to, free, sc.dyn, sc);
      }
    case Fn(_, _) =>
  }

  /** The lifetimes of `free` live at the call only, everything else everywhere. */
  ghost function Ending(free: set<Lt>): Scope {
    Scope(n => if Named(n) in free then iset{HERE} else EVERYWHERE, EVERYWHERE, _ => EVERYWHERE)
  }

  /** The instance of a type whose elided lifetimes are those of the reference that they are behind. */
  ghost function Spread(ty: Ty, sc: Scope, outer: Region): Sem {
    match ty
    case Path(n, lts, lv, args, av) =>
      SemPath(n,
              seq(|lts|, i requires 0 <= i < |lts| => In(if Elided(lts[i]) then outer else LtRegion(lts[i], sc))), lv,
              seq(|args|, i requires 0 <= i < |args| => Spread(args[i], sc, outer)), av)
    case Ref(lt, m, to) =>
      var r := if Elided(lt) then outer else LtRegion(lt, sc);
      SemRef(In(r), m, Spread(to, sc, r))
    case Fn(_, _) => Uniform(ty, sc, Bound)
  }

  lemma {:induction false} SpreadInst(ty: Ty, sc: Scope, outer: Region)
    ensures Inst(ty, Spread(ty, sc, outer), sc)
    decreases ty
  {
    match ty
    case Path(_, _, _, args, _) => forall i | 0 <= i < |args| { SpreadInst(args[i], sc, outer); }
    case Ref(lt, _, to) => SpreadInst(to, sc, if Elided(lt) then outer else LtRegion(lt, sc));
    case Fn(_, _) =>
  }

  lemma {:induction false} OutlivesHere(s: Sem, sc: Scope)
    ensures Outlives(s, iset{HERE}, sc)
    decreases s
  {
    match s
    case SemPath(_, _, _, args, _) => forall i | 0 <= i < |args| { OutlivesHere(args[i], sc); }
    case SemRef(_, _, to) => OutlivesHere(to, sc);
    case SemFn(params, ret) =>
      forall i | 0 <= i < |params| { OutlivesHere(params[i], sc); }
      OutlivesHere(ret, sc);
  }

  lemma {:induction false} UniformEverywhere(ty: Ty, captured: set<Lt>, free: set<Lt>)
    requires !Mentions(ty, free)
    ensures Outlives(Uniform(Rewrite(ty, captured), Ending(free), Bound), EVERYWHERE, Ending(free))
    decreases ty
  {
    match ty
    case Path(_, _, _, args, _) => forall i | 0 <= i < |args| { UniformEverywhere(args[i], captured, free); }
    case Ref(_, _, to) => UniformEverywhere(to, captured, free);
    case Fn(params, ret) =>
      forall i | 0 <= i < |params| { UniformEverywhere(params[i], captured, free); }
      UniformEverywhere(ret, captured, free);
  }

  lemma {:induction false} SpreadEverywhere(ty: Ty, captured: set<Lt>, free: set<Lt>)
    requires !Mentions(ty, free)
    ensures Outlives(Spread(Rewrite(ty, captured), Ending(free), EVERYWHERE), EVERYWHERE, Ending(free))
    decreases ty
  {
    match ty
    case Path(_, _, _, args, _) => forall i | 0 <= i < |args| { SpreadEverywhere(args[i], captured, free); }
    case Ref(_, _, to) => SpreadEverywhere(to, captured, free);
    case Fn(_, _) => UniformEverywhere(ty, captured, free);
  }

  lemma {:induction false} SpreadWellFormed(ty: Ty, captured: set<Lt>, free: set<Lt>, outer: Region)
    requires Detached(ty, free, Underscore in captured) && forall l :: l in free ==> l.Named? && l.name != "static"
    requires outer == iset{HERE} || (outer == EVERYWHERE && !Mentions(ty, free))
    ensures WellFormed(Spread(Rewrite(ty, captured), Ending(free), outer), Ending(free))
    decreases ty
  {
    match ty
    case Path(_, _, _, args, _) => forall i | 0 <= i < |args| { SpreadWellFormed(args[i], captured, free, outer); }
    case Ref(lt, _, to) =>
      var now := Rewrite(ty, captured);
      var r := if Elided(now.lt) then outer else LtRegion(now.lt, Ending(free));
      assert r == iset{HERE} || (r == EVERYWHERE && !Mentions(to, free));
      SpreadWellFormed(to, captured, free, r);
      if r == iset{HERE} {
        OutlivesHere(Spread(now.to, Ending(free), r), Ending(free));
      } else {
        SpreadEverywhere(to, captured, free);
      }
    case Fn(_, _) =>
  }

  lemma EndingHolds(sig: Signature, bounds: seq<Bound>, traitTypes: seq<string>, storage: string, free: set<Lt>)
    requires Scoped(sig, bounds) && MayEnd(sig, bounds, free)
    ensures BoundsHold(DynSignature(sig, bounds, traitTypes, storage).generics, Ending(free))
    ensures forall p :: p in DynSignature(sig, bounds, traitTypes, storage).preds ==> PredHolds(p, Ending(free))
  {
    hide Captured, Captures, FirstPrecise, DynSignature, Declared, Detached, NoDyn;
    var sc := Ending(free);
    NamesNamed(sig, bounds);
    DynGenericsHold(sig, bounds, traitTypes, storage, sc);
    DynPredsHold(sig, bounds, traitTypes, storage, sc);
    forall l | l in Captured(bounds, sig.generics) && !Elided(l) ensures sc.dyn <= LtRegion(l, sc) {
      CapturedIff(bounds, sig.generics, l);
    }
    forall g | g in sig.generics ensures BoundHolds(g, sc) { EndingBound(g, free, sig); }
  }

  lemma EndingBound(g: Generic, free: set<Lt>, sig: Signature)
    requires g in sig.generics && Closed(sig, free) && g.LtParam? && g.lt.Named?
    requires forall l :: l in free ==> l.Named? && l.name != "static"
    requires forall l :: l in g.bounds ==> l.Named?
    ensures BoundHolds(g, Ending(free))
  {
    forall k | 0 <= k < |g.bounds| ensures LtRegion(g.bounds[k], Ending(free)) <= LtRegion(g.lt, Ending(free)) {
      assert g.bounds[k] in g.bounds;
    }
  }

  /** Conversely such a set gives a call in which none of its lifetimes outlives `'__dyn`. */
  lemma EndingCall(sig: Signature, bounds: seq<Bound>, traitTypes: seq<string>, storage: string, free: set<Lt>)
    returns (sc: Scope, args: seq<Sem>)
    requires Scoped(sig, bounds) && MayEnd(sig, bounds, free)
    ensures Fits(DynSignature(sig, bounds, traitTypes, storage), sc, args)
    ensures forall l :: l in free ==> !(sc.dyn <= LtRegion(l, sc))
  {
    hide Inst, WellFormed, BoundsHold, PredHolds, Captured, Captures, FirstPrecise, DynSignature, Declared, Detached,
         NoDyn, Spread, Rewrite;
    sc := Ending(free);
    var d := DynSignature(sig, bounds, traitTypes, storage);
    SameInputs(sig, bounds, traitTypes, storage);
    NamesNamed(sig, bounds);
    EndingHolds(sig, bounds, traitTypes, storage, free);
    CapturedIff(bounds, sig.generics, Underscore);
    args := seq(|d.inputs|, i requires 0 <= i < |d.inputs| => Spread(ArgTy(d.inputs[i]), sc, iset{HERE}));
    forall i | 0 <= i < |args| ensures Inst(ArgTy(d.inputs[i]), args[i], sc) && WellFormed(args[i], sc) {
      DynArgFits(sig, bounds, traitTypes, storage, i);
      SpreadInst(ArgTy(d.inputs[i]), sc, iset{HERE});
      SpreadWellFormed(ArgTy(sig.inputs[i]), Captured(bounds, sig.generics), free, iset{HERE});
    }
    assert 1 in EVERYWHERE && 1 !in iset{HERE};
  }

  /** A declared lifetime may end before `'__dyn` in some call of the generated method exactly when it is
      in a set of lifetimes that nothing asks to outlive `'__dyn`: captures ask for no more than this. */
  lemma MayEndIff(sig: Signature, bounds: seq<Bound>, traitTypes: seq<string>, storage: string, l: Lt)
    requires Scoped(sig, bounds) && l in Names(sig.generics)
    ensures (exists sc, args :: Fits(DynSignature(sig, bounds, traitTypes, storage), sc, args)
                                && !(sc.dyn <= LtRegion(l, sc)))
            <==> exists free :: MayEnd(sig, bounds, free) && l in free
  {
    hide Fits, DynSignature, Scoped, MayEnd, Names, LtRegion;
    if sc, args :| Fits(DynSignature(sig, bounds, traitTypes, storage), sc, args) && !(sc.dyn <= LtRegion(l, sc)) {
      EndedApart(sig, bounds, traitTypes, storage, sc, args);
      assert l in Under(sig, sc.dyn, sc);
    }
    if free :| MayEnd(sig, bounds, free) && l in free {
      var sc, args := EndingCall(sig, bounds, traitTypes, storage, free);
    }
  }

  lemma {:induction false} NoneVisible(ty: Ty, s: Sem, sc: Scope, p: Region -> bool)
    requires Inst(ty, s, sc) && !Visible(ty)
    ensures AtVisible(ty, s, p)
    decreases ty
  {
    match ty
    case Path(_, _, _, args, _) => forall i | 0 <= i < |args| { NoneVisible(args[i], s.args[i], sc, p); }
    case Ref(_, _, to) => NoneVisible(to, s.to, sc, p);
    case Fn(_, _) =>
  }

  lemma {:induction false} SomeVisible(ty: Ty, s: Sem, sc: Scope, p: Region -> bool, q: Region -> bool)
    requires Inst(ty, s, sc) && Visible(ty) && AtVisible(ty, s, p) && AtVisible(ty, s, q)
    ensures exists r :: p(r) && q(r)
    decreases ty
  {
    match ty
    case Path(_, lts, _, args, _) =>
      if Underscore in lts {
        var i :| 0 <= i < |lts| && lts[i] == Underscore;
        assert p(s.lts[i].region) && q(s.lts[i].region);
      } else {
        var i :| 0 <= i < |args| && Visible(args[i]);
        SomeVisible(args[i], s.args[i], sc, p, q);
      }
    case Ref(lt, _, to) =>
      if Elided(lt) {
        assert p(s.lt.region) && q(s.lt.region);
      } else {
        SomeVisible(to, s.to, sc, p, q);
      }
    case Fn(_, _) =>
  }

  /** A parameter means the same in the generated signature exactly when it elides no lifetime, or elided
      lifetimes are not captured. */
  lemma TypeKeptIff(sig: Signature, bounds: seq<Bound>, traitTypes: seq<string>, storage: string, i: nat)
    requires Scoped(sig, bounds) && i < |sig.inputs|
    ensures |DynSignature(sig, bounds, traitTypes, storage).inputs| == |sig.inputs|
    ensures var ty, now := ArgTy(sig.inputs[i]), ArgTy(DynSignature(sig, bounds, traitTypes, storage).inputs[i]);
      (forall sc, s :: Inst(now, s, sc) <==> Inst(ty, s, sc))
      <==> (Captures(bounds, sig.generics, Underscore) ==> !Visible(ty) && !FnElided(ty))
  {
    hide Inst, Captured, Captures, FirstPrecise, DynSignature, Declared, NoDyn, AtVisible, Visible, FnElided, Widest,
         Rewrite;
    var ty, captured := ArgTy(sig.inputs[i]), Captured(bounds, sig.generics);
    SameInputs(sig, bounds, traitTypes, storage);
    DynArgFits(sig, bounds, traitTypes, storage, i);
    CapturedIff(bounds, sig.generics, Underscore);
    if Underscore in captured && FnElided(ty) {
      WidestFits(Rewrite(ty, captured), EVERYWHERE);
      FnClash(ty, captured, Widest(Rewrite(ty, captured), EVERYWHERE), EVERYTHING);
    } else if Underscore in captured && Visible(ty) {
      VisibleChanges(ty, captured);
    } else {
      forall sc, s ensures Inst(Rewrite(ty, captured), s, sc) <==> Inst(ty, s, sc) {
        RewriteInst(ty, captured, s, sc);
        if Inst(ty, s, sc) && Underscore in captured { NoneVisible(ty, s, sc, r => r == sc.dyn); }
      }
    }
  }

  lemma VisibleChanges(ty: Ty, captured: set<Lt>)
    requires Underscore in captured && Visible(ty) && !FnElided(ty) && NoDyn(ty)
    ensures exists sc, s :: Inst(ty, s, sc) && !Inst(Rewrite(ty, captured), s, sc)
  {
    hide Inst, AtVisible, Visible, FnElided, Widest, Rewrite, NoDyn;
    var s, sc := Widest(ty, EVERYWHERE), EVERYTHING.(dyn := iset{HERE});
    WidestFits(ty, EVERYWHERE);
    InstSame(ty, s, EVERYTHING, sc);
    WidestVisible(ty, EVERYWHERE);
    RewriteInst(ty, captured, s, sc);
    assert 1 in EVERYWHERE && 1 !in iset{HERE};
    if AtVisible(ty, s, r => r == sc.dyn) {
      SomeVisible(ty, s, sc, r => r == EVERYWHERE, r => r == sc.dyn);
    }
    assert Inst(ty, s, sc) && !Inst(Rewrite(ty, captured), s, sc);
  }

  // ----- `'__dyn` is declared -----

  lemma {:induction false} RewriteDeclared(ty: Ty, names: set<Lt>, captured: set<Lt>)
    requires Declared(ty, names)
    ensures Declared(Rewrite(ty, captured), names + {Dyn})
    decreases ty
  {
    match ty
    case Path(_, _, _, args, _) => forall i | 0 <= i < |args| { RewriteDeclared(args[i], names, captured); }
    case Ref(_, _, to) => RewriteDeclared(to, names, captured);
    case Fn(_, _) =>
  }

  /** The generated signature declares `'__dyn` first, unbounded, and every lifetime that it names. */
  lemma DynDeclared(sig: Signature, bounds: seq<Bound>, traitTypes: seq<string>, storage: string)
    requires Scoped(sig, bounds)
    ensures var d := DynSignature(sig, bounds, traitTypes, storage);
      |d.generics| == |sig.generics| + 1 && d.generics[0] == LtParam(Dyn, [])
      && (forall i :: 0 <= i < |d.inputs| ==> Declared(ArgTy(d.inputs[i]), Names(d.generics)))
      && (forall g :: g in d.generics ==> g.LtParam? && forall l :: l in g.bounds ==> l in Names(d.generics))
      && forall p :: p in d.preds ==> p.lt in Names(d.generics) && (p.LtOutlives? ==> p.sub in Names(d.generics))
  {
    hide Declared, NoDyn, Captured, Names, Rewrite;
    var d := DynSignature(sig, bounds, traitTypes, storage);
    DynNames(sig, bounds, traitTypes, storage);
    SameInputs(sig, bounds, traitTypes, storage);
    forall i | 0 <= i < |d.inputs| ensures Declared(ArgTy(d.inputs[i]), Names(d.generics)) {
      DynArgFits(sig, bounds, traitTypes, storage, i);
      RewriteDeclared(ArgTy(sig.inputs[i]), Names(sig.generics), Captured(bounds, sig.generics));
    }
    forall i | 0 <= i < |d.generics|
      ensures d.generics[i].LtParam? && forall l :: l in d.generics[i].bounds ==> l in Names(d.generics)
    {
      if i > 0 { GenericDeclared(sig.generics, i - 1, Captured(bounds, sig.generics), Names(sig.generics)); }
    }
  }

  lemma GenericDeclared(generics: seq<Generic>, i: nat, captured: set<Lt>, names: set<Lt>)
    requires i < |generics| && forall g :: g in generics ==> g.LtParam? && forall l :: l in g.bounds ==> l in names
    ensures var g := DynGeneric(generics[i], captured);
      g.LtParam? && forall l :: l in g.bounds ==> l in names + {Dyn}
  {
    assert generics[i] in generics;
  }

  lemma DynNames(sig: Signature, bounds: seq<Bound>, traitTypes: seq<string>, storage: string)
    requires Scoped(sig, bounds)
    ensures Names(DynSignature(sig, bounds, traitTypes, storage).generics) == Names(sig.generics) + {Dyn}
  {
    hide Declared, NoDyn, Captured;
    var now, was := DynSignature(sig, bounds, traitTypes, storage).generics, sig.generics;
    assert now[0] == LtParam(Dyn, []) && |now| == |was| + 1;
    forall i | 0 <= i < |was| ensures was[i].LtParam? && now[i + 1].LtParam? && now[i + 1].lt == was[i].lt {
      assert now[i + 1] == DynGeneric(was[i], Captured(bounds, was)) && was[i] in was;
    }
    NamesShifted(was, now);
  }

  lemma NamesShifted(was: seq<Generic>, now: seq<Generic>)
    requires |now| == |was| + 1 && now[0] == LtParam(Dyn, [])
    requires forall i :: 0 <= i < |was| ==> was[i].LtParam? && now[i + 1].LtParam? && now[i + 1].lt == was[i].lt
    ensures Names(now) == Names(was) + {Dyn}
  {
    forall l | l in Names(was) && l != Named("static") ensures l in Names(now) {
      var i :| 0 <= i < |was| && was[i].LtParam? && was[i].lt == l;
      assert now[i + 1].lt == l;
    }
    forall l | l in Names(now) && l != Named("static") ensures l in Names(was) + {Dyn} {
      var i :| 0 <= i < |now| && now[i].LtParam? && now[i].lt == l;
      if i > 0 { assert was[i - 1].lt == now[i - 1 + 1].lt; }
    }
  }

  // ----- the returned object -----

  /** A trait with its bindings, as a bound of an `impl Trait` or a `dyn Trait` means it. */
  datatype SemTrait = SemTrait(ty: Sem, bindings: seq<(string, Sem)>)

  ghost function TraitMeaning(b: Bound, sc: Scope, elided: SemLt): SemTrait
    requires b.TraitBound?
  {
    SemTrait(Uniform(b.ty, sc, elided),
             seq(|b.bindings|,
               i requires 0 <= i < |b.bindings| => (b.bindings[i].name, Uniform(b.bindings[i].ty, sc, elided))))
  }

  /** The traits of a return type when every elided lifetime in it is that of the receiver. */
  ghost function TraitMeanings(bounds: seq<Bound>, sc: Scope, receiver: Region): seq<SemTrait> {
    if bounds == [] then []
    else (if bounds[0].TraitBound? then [TraitMeaning(bounds[0], sc, In(receiver))] else [])
         + TraitMeanings(bounds[1..], sc, receiver)
  }

  /** Nothing a type of the return type elides changes its meaning. */
  ghost predicate TyKept(ty: Ty, captured: set<Lt>, sc: Scope, receiver: Region) {
    Underscore in captured ==> !FnElided(ty) && (Visible(ty) ==> receiver == sc.dyn)
  }

  ghost predicate BoundKept(b: Bound, captured: set<Lt>, sc: Scope, receiver: Region) {
    b.TraitBound? ==>
      TyKept(b.ty, captured, sc, receiver)
      && forall i :: 0 <= i < |b.bindings| ==> TyKept(b.bindings[i].ty, captured, sc, receiver)
  }

  lemma TraitRewrite(b: Bound, captured: set<Lt>, sc: Scope, receiver: Region)
    requires b.TraitBound?
    ensures TraitMeaning(RewriteBound(b, captured), sc, In(receiver)) == TraitMeaning(b, sc, In(receiver))
            <==> BoundKept(b, captured, sc, receiver)
  {
    hide Uniform, Rewrite, FnElided, Visible;
    UniformRewrite(b.ty, captured, sc, In(receiver));
    forall i | 0 <= i < |b.bindings| { UniformRewrite(b.bindings[i].ty, captured, sc, In(receiver)); }
    var now, was := TraitMeaning(RewriteBound(b, captured), sc, In(receiver)), TraitMeaning(b, sc, In(receiver));
    if now.bindings == was.bindings {
      forall i | 0 <= i < |b.bindings| ensures TyKept(b.bindings[i].ty, captured, sc, receiver) {
        assert now.bindings[i] == was.bindings[i];
      }
    }
  }

  /** The returned object implements the traits of the original value exactly when what it elides
      is not rewritten, or means the receiver's lifetime and that is `'__dyn`. */
  lemma {:induction false} OutputIff(bounds: seq<Bound>, captured: set<Lt>, sc: Scope, receiver: Region)
    ensures TraitMeanings(DynBounds(bounds, captured), sc, receiver) == TraitMeanings(bounds, sc, receiver)
            <==> forall b :: b in bounds ==> BoundKept(b, captured, sc, receiver)
    decreases bounds
  {
    hide TraitMeaning, RewriteBound, BoundKept;
    var now := DynBounds(bounds, captured);
    if bounds == [] {
      assert now[1..] == [];
      assert TraitMeanings(now, sc, receiver) == [];
    } else {
      var rest := bounds[1..];
      OutputIff(rest, captured, sc, receiver);
      assert bounds == [bounds[0]] + rest;
      assert (forall b :: b in bounds ==> BoundKept(b, captured, sc, receiver)) <==>
        BoundKept(bounds[0], captured, sc, receiver) && forall b :: b in rest ==> BoundKept(b, captured, sc, receiver);
      if bounds[0].TraitBound? {
        TraitRewrite(bounds[0], captured, sc, receiver);
        assert now == [RewriteBound(bounds[0], captured)] + DynBounds(rest, captured);
        assert now[1..] == DynBounds(rest, captured);
        ConsEq(TraitMeaning(now[0], sc, In(receiver)), TraitMeanings(now[1..], sc, receiver),
               TraitMeaning(bounds[0], sc, In(receiver)), TraitMeanings(rest, sc, receiver));
        assert TraitMeanings(now, sc, receiver) ==
          [TraitMeaning(now[0], sc, In(receiver))] + TraitMeanings(now[1..], sc, receiver);
        assert TraitMeanings(bounds, sc, receiver) ==
          [TraitMeaning(bounds[0], sc, In(receiver))] + TraitMeanings(rest, sc, receiver);
      } else {
        NotATrait(bounds[0], captured, sc, receiver);
        assert now == DynBounds(rest, captured);
        assert TraitMeanings(bounds, sc, receiver) == TraitMeanings(rest, sc, receiver);
      }
    }
  }

  lemma NotATrait(b: Bound, captured: set<Lt>, sc: Scope, receiver: Region)
    requires !b.TraitBound?
    ensures BoundKept(b, captured, sc, receiver)
  {
  }

  lemma ConsEq<T>(x: T, xs: seq<T>, y: T, ys: seq<T>)
    ensures [x] + xs == [y] + ys <==> x == y && xs == ys
  {
    if [x] + xs == [y] + ys {
      assert ([x] + xs)[0] == x && ([x] + xs)[1..] == xs && ([y] + ys)[0] == y && ([y] + ys)[1..] == ys;
    }
  }

  /** The only lifetime bound of the returned object is `'__dyn`. */
  lemma {:induction false} OnlyDyn(bounds: seq<Bound>, captured: set<Lt>)
    ensures forall b :: b in DynBounds(bounds, captured) && !b.TraitBound? ==> b == LtBound(Dyn)
    ensures LtBound(Dyn) in DynBounds(bounds, captured)
    decreases bounds
  {
    if bounds != [] { OnlyDyn(bounds[1..], captured); }
  }

  /** The region at the receiver's lifetime, in the argument passed for it. */
  ghost function ReceiverLt(a: Arg, s: Sem): Region {
    var to := if a.Receiver? && a.lt.None? && s.SemPath? && |s.args| == 1 then s.args[0] else s;
    if to.SemRef? && to.lt.In? then to.lt.region else EVERYWHERE
  }

  /** No trait of the return type, and no binding, elides a lifetime inside a `Fn`. */
  predicate NoFnInBounds(bounds: seq<Bound>) {
    forall b :: b in bounds && b.TraitBound? ==>
      !FnElided(b.ty) && forall i :: 0 <= i < |b.bindings| ==> !FnElided(b.bindings[i].ty)
  }

  /** In a call of a generated method whose receiver elided its lifetime, the returned object implements
      the traits of the original value exactly when none of them elides a lifetime inside a `Fn`, or
      elided lifetimes are not captured. */
  lemma OutputSound(sig: Signature, bounds: seq<Bound>, traitTypes: seq<string>, storage: string, sc: Scope,
                    args: seq<Sem>)
    requires |sig.inputs| > 0 && ElidedReceiver(sig.inputs[0])
    requires Fits(DynSignature(sig, bounds, traitTypes, storage), sc, args)
    ensures args[0] == ReceiverSem(sig.inputs[0], ReceiverLt(sig.inputs[0], args[0]))
    ensures OutputKept(sig, bounds, traitTypes, storage, sc, args)
            <==> (Underscore in Captured(bounds, sig.generics) ==> NoFnInBounds(bounds))
  {
    hide Inst, WellFormed, Captured, FirstPrecise, Rewrite, FnElided, Visible, ElidedReceiver, ReceiverSem,
         BoundsHold, PredHolds, ReceiverLt, TraitMeanings, DynBounds;
    var captured := Captured(bounds, sig.generics);
    DynArgFits(sig, bounds, traitTypes, storage, 0);
    var receiver := ReceiverRegion(sig.inputs[0], captured, args[0], sc);
    OutputIff(bounds, captured, sc, receiver);
  }

  /** The returned object of the call implements the traits that the original value does. */
  ghost predicate OutputKept(sig: Signature, bounds: seq<Bound>, traitTypes: seq<string>, storage: string, sc: Scope,
                             args: seq<Sem>)
    requires |sig.inputs| > 0 && |args| > 0
  {
    var receiver := ReceiverLt(sig.inputs[0], args[0]);
    TraitMeanings(DynSignature(sig, bounds, traitTypes, storage).output.bounds, sc, receiver)
      == TraitMeanings(bounds, sc, receiver)
  }

  lemma ReceiverRegion(a: Arg, captured: set<Lt>, now: Sem, sc: Scope) returns (r: Region)
    requires ElidedReceiver(a) && Inst(Rewrite(ArgTy(a), captured), now, sc)
    ensures r == ReceiverLt(a, now) && now == ReceiverSem(a, r) && (Underscore in captured ==> r == sc.dyn)
  {
    match a
    case Receiver(Some(_), m, _) =>
      assert Rewrite(SELF_TY, captured) == SELF_TY && now.to == SemPath(SELF, [], Co, [], Co);
      r := now.lt.region;
    case Receiver(None, _, ty) =>
      assert Inst(Rewrite(ty.args[0], captured), now.args[0], sc);
      assert Inst(Rewrite(SELF_TY, captured), now.args[0].to, sc);
      assert now.args[0].to == SemPath(SELF, [], Co, [], Co);
      r := now.args[0].lt.region;
      assert now.args == [now.args[0]] && now.lts == [];
  }

  /** So the traits are kept in all calls exactly then. */
  lemma OutputKeptIff(sig: Signature, bounds: seq<Bound>, traitTypes: seq<string>, storage: string)
    requires |sig.inputs| > 0 && ElidedReceiver(sig.inputs[0])
    ensures (forall sc, args :: Fits(DynSignature(sig, bounds, traitTypes, storage), sc, args) ==>
              |args| > 0 && OutputKept(sig, bounds, traitTypes, storage, sc, args))
            <==> (Underscore in Captured(bounds, sig.generics) ==> NoFnInBounds(bounds))
  {
    hide Inst, WellFormed, Captured, FirstPrecise, ElidedReceiver, BoundsHold, PredHolds, OutputKept, NoFnInBounds,
         ReceiverLt, ReceiverSem;
    var d := DynSignature(sig, bounds, traitTypes, storage);
    forall sc, args | Fits(d, sc, args) ensures |args| > 0 {}
    forall sc, args | Fits(d, sc, args) { OutputSound(sig, bounds, traitTypes, storage, sc, args); }
    WidestCallFits(d, EVERYWHERE);
    assert |WidestCall(d, EVERYWHERE)| > 0;
  }
}
