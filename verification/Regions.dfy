/** What types and signatures mean once every lifetime is a region. */
module Regions {
  import opened Syntax

  /** The program point of the call. */
  const HERE: int := 0

  /** The program points where a reference may be used; outliving is inclusion. What is passed to a
      call is live there. */
  type Region = r: iset<int> | HERE in r ghost witness iset{HERE}

  ghost const EVERYWHERE: Region := iset x: int | true

  /** A lifetime that means a region, or one bound by an enclosing `Fn`. */
  datatype SemLt = In(region: Region) | Bound

  /** A type whose lifetimes are regions. */
  datatype Sem =
    | SemPath(name: Name, lts: seq<SemLt>, ltVar: Variance, args: seq<Sem>, argVar: Variance)
    | SemRef(lt: SemLt, mut: bool, to: Sem)
    | SemFn(params: seq<Sem>, ret: Sem)

  /** The regions of the named lifetimes and of `'__dyn`, and those that types outlive. */
  datatype Scope = Scope(named: string -> Region, dyn: Region, types: Name -> Region)

  ghost function LtRegion(l: Lt, sc: Scope): Region {
    match l
    case Named(n) => if n == "static" then EVERYWHERE else sc.named(n)
    case _ => sc.dyn
  }

  function Flip(v: Variance): Variance {
    match v
    case Co => Contra
    case Contra => Co
    case Inv => Inv
  }

  function Compose(v: Variance, w: Variance): Variance {
    match w
    case Co => v
    case Contra => Flip(v)
    case Inv => Inv
  }

  // ----- meaning -----

  ghost function UniformLt(l: Lt, sc: Scope, elided: SemLt): SemLt {
    if Elided(l) then elided else In(LtRegion(l, sc))
  }

  /** The meaning of a type all of whose elided lifetimes mean `elided`. */
  ghost function Uniform(ty: Ty, sc: Scope, elided: SemLt): Sem {
    match ty
    case Path(n, lts, lv, args, av) =>
      SemPath(n, seq(|lts|, i requires 0 <= i < |lts| => UniformLt(lts[i], sc, elided)), lv,
              seq(|args|, i requires 0 <= i < |args| => Uniform(args[i], sc, elided)), av)
    case Ref(lt, m, to) => SemRef(UniformLt(lt, sc, elided), m, Uniform(to, sc, elided))
    case Fn(params, ret) =>
      SemFn(seq(|params|, i requires 0 <= i < |params| => Uniform(params[i], sc, Bound)), Uniform(ret, sc, Bound))
  }

  ghost predicate LtInst(l: Lt, s: SemLt, sc: Scope) {
    s.In? && (!Elided(l) ==> s.region == LtRegion(l, sc))
  }

  /** `s` is the type `ty` for some choice of a region at each elided lifetime. */
  ghost predicate Inst(ty: Ty, s: Sem, sc: Scope) {
    match ty
    case Path(n, lts, lv, args, av) =>
      s.SemPath? && s.name == n && s.ltVar == lv && s.argVar == av
      && |s.lts| == |lts| && (forall i :: 0 <= i < |lts| ==> LtInst(lts[i], s.lts[i], sc))
      && |s.args| == |args| && forall i :: 0 <= i < |args| ==> Inst(args[i], s.args[i], sc)
    case Ref(lt, m, to) => s.SemRef? && s.mut == m && LtInst(lt, s.lt, sc) && Inst(to, s.to, sc)
    case Fn(_, _) => s == Uniform(ty, sc, Bound)
  }

  // ----- outliving and well-formedness -----

  /** Every region in `s`, and every type named in it, outlives `r`. */
  ghost predicate Outlives(s: Sem, r: Region, sc: Scope) {
    match s
    case SemPath(n, lts, _, args, _) =>
      r <= sc.types(n) && (forall i :: 0 <= i < |lts| && lts[i].In? ==> r <= lts[i].region)
      && forall i :: 0 <= i < |args| ==> Outlives(args[i], r, sc)
    case SemRef(lt, _, to) => (lt.In? ==> r <= lt.region) && Outlives(to, r, sc)
    case SemFn(params, ret) => (forall i :: 0 <= i < |params| ==> Outlives(params[i], r, sc)) && Outlives(ret, r, sc)
  }

  /** What a reference refers to outlives it. */
  ghost predicate WellFormed(s: Sem, sc: Scope) {
    match s
    case SemPath(_, _, _, args, _) => forall i :: 0 <= i < |args| ==> WellFormed(args[i], sc)
    case SemRef(lt, _, to) => (lt.In? ==> Outlives(to, lt.region, sc)) && WellFormed(to, sc)
    case SemFn(_, _) => true
  }

  // ----- subtyping -----

  ghost predicate SubLt(a: SemLt, b: SemLt, v: Variance) {
    match (a, b)
    case (In(r), In(s)) => (match v case Co => s <= r case Contra => r <= s case Inv => r == s)
    case _ => a == b
  }

  /** `a` can be used where `b` is expected, at a position of variance `v`. */
  ghost predicate Sub(a: Sem, b: Sem, v: Variance) {
    match a
    case SemPath(n, l, lv, x, av) =>
      b.SemPath? && b.name == n && b.ltVar == lv && b.argVar == av
      && |b.lts| == |l| && (forall i :: 0 <= i < |l| ==> SubLt(l[i], b.lts[i], Compose(v, lv)))
      && |b.args| == |x| && forall i :: 0 <= i < |x| ==> Sub(x[i], b.args[i], Compose(v, av))
    case SemRef(l, m, t) => b.SemRef? && b.mut == m && SubLt(l, b.lt, v) && Sub(t, b.to, if m then Inv else v)
    case SemFn(p, r) =>
      b.SemFn? && |b.params| == |p| && (forall i :: 0 <= i < |p| ==> Sub(p[i], b.params[i], Flip(v)))
      && Sub(r, b.ret, v)
  }

  lemma {:induction false} SubRefl(a: Sem, v: Variance)
    ensures Sub(a, a, v)
    decreases a
  {
    match a
    case SemPath(_, _, _, x, av) =>
      forall i | 0 <= i < |x| ensures Sub(x[i], x[i], Compose(v, av)) { SubRefl(x[i], Compose(v, av)); }
    case SemRef(_, m, t) => SubRefl(t, if m then Inv else v);
    case SemFn(p, r) =>
      forall i | 0 <= i < |p| ensures Sub(p[i], p[i], Flip(v)) { SubRefl(p[i], Flip(v)); }
      SubRefl(r, v);
  }

  // ----- signatures -----

  ghost predicate BoundHolds(g: Generic, sc: Scope) {
    g.LtParam? ==> forall k :: 0 <= k < |g.bounds| ==> LtRegion(g.bounds[k], sc) <= LtRegion(g.lt, sc)
  }

  ghost predicate BoundsHold(generics: seq<Generic>, sc: Scope) {
    forall g :: g in generics ==> BoundHolds(g, sc)
  }

  ghost predicate PredHolds(p: Pred, sc: Scope) {
    match p
    case TyOutlives(n, lt) => LtRegion(lt, sc) <= sc.types(n)
    case LtOutlives(sub, lt) => LtRegion(lt, sc) <= LtRegion(sub, sc)
  }

  /** The arguments `args` are a call of the signature: its declared bounds hold and each argument
      is a well-formed instance of the parameter's type. */
  ghost predicate Fits(sig: Signature, sc: Scope, args: seq<Sem>) {
    BoundsHold(sig.generics, sc)
    && (forall p :: p in sig.preds ==> PredHolds(p, sc))
    && |args| == |sig.inputs|
    && forall i :: 0 <= i < |args| ==> Inst(ArgTy(sig.inputs[i]), args[i], sc) && WellFormed(args[i], sc)
  }
}
