/** Concrete methods at which the conditions of the macros fail. */
module Witnesses {
  import opened Wrappers
  import opened Syntax
  import opened Regions
  import Lifetimes
  import DynMethod
  import DynObjectMacro
  import DynTraitLaws
  import DynTraitMacro
  import Layout
  import Values
  import Client

  /** Type 1 owns a `DynObject` in a `Raw<8, 8>`, which type 0 fits in. */
  const NESTED: Values.Env := Values.Env(
    map[0 := Values.TypeDesc(Layout.Layout(4, 4), 4, [], true, true, []),
        1 := Values.TypeDesc(Layout.Layout(24, 8), 8, [Values.Field(8, Layout.Raw(8, 8))], false, true, [])],
    0, true)

  /** The programs of the storages' results exist: nested types are well formed, and a value of
      type 0 can be stored, built into one of type 1, and that be stored in any storage. */
  lemma NestedTypes()
    ensures Values.WfEnv(NESTED)
    ensures Client.Compiles(NESTED, [Client.ValueOf(0)], Client.New(Layout.Raw(8, 8), 0))
    ensures Client.Compiles(NESTED, [Client.DynOf(Layout.Raw(8, 8))], Client.Make(1, seq(8, _ => 0), [0]))
    ensures forall k :: k == Layout.Raw(24, 8) || k == Layout.Box || k == Layout.RawOrBox(0, 1) ==>
      Client.Compiles(NESTED, [Client.ValueOf(1)], Client.New(k, 0))
  {
    assert Layout.IsPow2(1) && Layout.IsPow2(2) && Layout.IsPow2(4) && Layout.IsPow2(8);
    var f := Values.Field(8, Layout.Raw(8, 8));
    assert Layout.DynSize(f.kind) == 16;
    assert Values.WfField(NESTED.types[1], f);
    assert Values.WfType(NESTED, NESTED.types[0]) && Values.WfType(NESTED, NESTED.types[1]);
  }

  const STR: Ty := Path(["str"], [], Co, [], Co)

  const BOUNDS: seq<Bound> := [TraitBound(Path(["Trait"], [], Inv, [], Inv), [])]

  /** `fn f(&self, a: ty) -> impl Trait;` */
  function OneArg(ty: Ty): Signature {
    Signature("f", false, [], [],
              [Receiver(Some(Absent), false, SELF_TY), Typed(Bind(false, false, "a", None), ty)], Opaque(BOUNDS))
  }

  lemma NothingPrecise()
    ensures Lifetimes.FirstPrecise(BOUNDS).None? && Lifetimes.Captured(BOUNDS, []) == {Underscore}
  {
    assert BOUNDS[1..] == [];
  }

  lemma OneArgScoped(ty: Ty)
    requires Lifetimes.Declared(ty, {Named("static")}) && Lifetimes.NoDyn(ty)
    ensures Lifetimes.Scoped(OneArg(ty), BOUNDS)
  {
    NothingPrecise();
    var names: set<Lt> := {Named("static")};
    assert Lifetimes.Names([]) == names;
    assert Lifetimes.Declared(SELF_TY, names) && Lifetimes.NoDyn(SELF_TY);
    assert Lifetimes.Declared(Ref(Absent, false, SELF_TY), names) && Lifetimes.NoDyn(Ref(Absent, false, SELF_TY));
  }

  /** `fn f(&self, a: Context) -> impl Trait`, with a hidden lifetime: the generated signature does
      not make the captured lifetime of `Context` outlive `'__dyn`. */
  lemma HiddenLifetime() returns (sc: Scope, args: seq<Sem>)
    ensures var sig := OneArg(Path(["Context"], [Absent], Co, [], Co));
      Fits(Lifetimes.DynSignature(sig, BOUNDS, [], "S"), sc, args)
        && !Lifetimes.CapturedOutlive(sig, BOUNDS, [], sc, args)
  {
    var ty := Path(["Context"], [Absent], Co, [], Co);
    var sig := OneArg(ty);
    NothingPrecise();
    OneArgScoped(ty);
    assert Lifetimes.Exposed(ArgTy(sig.inputs[1]));
    sc, args := Lifetimes.Unsound(sig, BOUNDS, [], "S");
    NoFn(sig, ty, sc, args);
  }

  /** Such a call is a call of the original method, so it is the capture that fails. */
  lemma NoFn(sig: Signature, ty: Ty, sc: Scope, args: seq<Sem>)
    requires sig == OneArg(ty) && !Lifetimes.FnElided(ty)
    requires Fits(Lifetimes.DynSignature(sig, BOUNDS, [], "S"), sc, args)
    ensures Fits(sig, sc, args)
  {
    hide Inst, WellFormed;
    NothingPrecise();
    forall i | 0 <= i < |args|
      ensures Inst(ArgTy(sig.inputs[i]), args[i], sc) && WellFormed(args[i], sc)
    {
      Lifetimes.DynArgFits(sig, BOUNDS, [], "S", i);
      Lifetimes.RewriteInst(ArgTy(sig.inputs[i]), {Underscore}, args[i], sc);
    }
  }

  /** `fn f(&self, a: fn(&str) -> str) -> impl Trait`: the rewriting enters the function type and
      changes it, so that no call of the generated method is one of the original. */
  lemma ElidedInFn(sc: Scope, args: seq<Sem>)
    ensures var sig := OneArg(Fn([Ref(Absent, false, STR)], STR));
      Fits(Lifetimes.DynSignature(sig, BOUNDS, [], "S"), sc, args) ==> !Fits(sig, sc, args)
  {
    var sig := OneArg(Fn([Ref(Absent, false, STR)], STR));
    NothingPrecise();
    assert Lifetimes.Visible(ArgTy(sig.inputs[1]).params[0]);
    if Fits(Lifetimes.DynSignature(sig, BOUNDS, [], "S"), sc, args) {
      Lifetimes.DynArgFits(sig, BOUNDS, [], "S", 1);
      Lifetimes.FnClash(ArgTy(sig.inputs[1]), {Underscore}, args[1], sc);
    }
  }

  /** `fn f(&self, a: &mut Vec<&str>) -> impl Trait`: a call whose receiver lives shorter than its
      strings is a call of the original method, and of the generated one for no `'__dyn`. */
  lemma InvariantElided()
    ensures var sig := OneArg(Ref(Absent, true, Path(["Vec"], [], Co, [Ref(Absent, false, STR)], Co)));
      Fits(sig, Lifetimes.EVERYTHING, Lifetimes.NarrowCall(sig))
      && forall sc :: !Lifetimes.Usable(sig, BOUNDS, [], "S", sc, Lifetimes.NarrowCall(sig))
  {
    var vec := Path(["Vec"], [], Co, [Ref(Absent, false, STR)], Co);
    var sig := OneArg(Ref(Absent, true, vec));
    NothingPrecise();
    var names: set<Lt> := {Named("static")};
    assert Lifetimes.Declared(STR, names) && Lifetimes.NoDyn(STR);
    assert Lifetimes.Declared(Ref(Absent, false, STR), names) && Lifetimes.NoDyn(Ref(Absent, false, STR));
    assert Lifetimes.Declared(vec, names) && Lifetimes.NoDyn(vec);
    OneArgScoped(Ref(Absent, true, vec));
    assert vec.args[0] == Ref(Absent, false, STR);
    assert !Lifetimes.Covariant(vec.args[0], Inv);
    assert !Lifetimes.Covariant(vec, Inv);
    assert forall shrunk :: !Lifetimes.Shrinks(ArgTy(sig.inputs[1]), shrunk);
    Lifetimes.NarrowCallFits(sig);
    forall sc { Lifetimes.NeverUsable(sig, BOUNDS, [], "S", sc); }
  }

  /** `fn f(&self, a: &str) -> impl Trait + use<'_>`: the return type captures the receiver's lifetime
      only, but the argument's bounds `'__dyn` as well. */
  lemma UseElided()
    ensures var bounds := BOUNDS + [Precise([CapLt(Underscore)])];
      var sig := OneArg(Ref(Absent, false, STR)).(output := Opaque(bounds));
      var args := [SemRef(In(EVERYWHERE), false, SemPath(SELF, [], Co, [], Co)),
                   SemRef(In(iset{HERE}), false, SemPath(["str"], [], Co, [], Co))];
      Fits(sig, Lifetimes.EVERYTHING, args)
      && forall sc: Scope :: Lifetimes.Usable(sig, bounds, [], "S", sc, args) ==> sc.dyn <= iset{HERE}
  {
    var bounds := BOUNDS + [Precise([CapLt(Underscore)])];
    var sig := OneArg(Ref(Absent, false, STR)).(output := Opaque(bounds));
    var args := [SemRef(In(EVERYWHERE), false, SemPath(SELF, [], Co, [], Co)),
                 SemRef(In(iset{HERE}), false, SemPath(["str"], [], Co, [], Co))];
    UseCaptures(bounds);
    StrFits();
    forall sc: Scope | Lifetimes.Usable(sig, bounds, [], "S", sc, args)
      ensures sc.dyn <= iset{HERE}
    {
      var now :| Fits(Lifetimes.DynSignature(sig, bounds, [], "S"), sc, now) && Lifetimes.AllSub(args, now);
      Lifetimes.DynArgFits(sig, bounds, [], "S", 1);
      assert Lifetimes.Rewrite(Ref(Absent, false, STR), {Underscore}).lt == Dyn;
      assert Sub(args[1], now[1], Co);
    }
  }

  lemma StrFits()
    ensures Inst(SELF_TY, SemPath(SELF, [], Co, [], Co), Lifetimes.EVERYTHING)
    ensures Inst(STR, SemPath(["str"], [], Co, [], Co), Lifetimes.EVERYTHING)
    ensures forall r, n :: Outlives(SemPath(n, [], Co, [], Co), r, Lifetimes.EVERYTHING)
  {}

  lemma UseCaptures(bounds: seq<Bound>)
    requires bounds == BOUNDS + [Precise([CapLt(Underscore)])]
    ensures Lifetimes.Captured(bounds, []) == {Underscore}
  {
    assert bounds[1..] == [Precise([CapLt(Underscore)])];
    assert bounds[1..][0].Precise? && Lifetimes.FirstPrecise(bounds) == Some([CapLt(Underscore)]);
    var c := [CapLt(Underscore)];
    assert c[0].CapLt?;
  }

  /** `fn f<'a>(&self, a: &'a &str) -> impl Trait;` */
  const OVER: Signature := Signature(
    "f", false, [LtParam(Named("a"), [])], [],
    [Receiver(Some(Absent), false, SELF_TY),
     Typed(Bind(false, false, "a", None), Ref(Named("a"), false, Ref(Absent, false, STR)))],
    Opaque(BOUNDS))

  /** `'a` must shrink with the elided lifetime that it is over: no call is lost, but some call is when
      `'a` keeps its region. */
  lemma NamedShrinks()
    ensures Lifetimes.Keeps(OVER, BOUNDS)
    ensures Fits(OVER, Lifetimes.EVERYTHING, Lifetimes.NarrowCall(OVER))
    ensures forall sc: Scope :: sc.named == Lifetimes.EVERYTHING.named ==>
      !Lifetimes.Usable(OVER, BOUNDS, [], "S", sc, Lifetimes.NarrowCall(OVER))
  {
    hide Lifetimes.Captured, Lifetimes.DynSignature, Fits, Lifetimes.AllSub, Lifetimes.NarrowCall, Lifetimes.Scoped;
    OverScoped();
    OverShrinks();
    assert Lifetimes.CanShrink(OVER, BOUNDS, {Named("a")});
    Lifetimes.NarrowCallFits(OVER);
    forall sc: Scope | sc.named == Lifetimes.EVERYTHING.named
      ensures !Lifetimes.Usable(OVER, BOUNDS, [], "S", sc, Lifetimes.NarrowCall(OVER))
    {
      forall now | Fits(Lifetimes.DynSignature(OVER, BOUNDS, [], "S"), sc, now)
                   && Lifetimes.AllSub(Lifetimes.NarrowCall(OVER), now)
        ensures false
      {
        NothingSmall(sc);
        Lifetimes.UsableShrinks(OVER, BOUNDS, [], "S", sc, now);
      }
    }
  }

  lemma NothingSmall(sc: Scope)
    requires sc.named == Lifetimes.EVERYTHING.named
    ensures Lifetimes.Under(OVER, EVERYWHERE, sc) == {}
  {}

  lemma OverScoped()
    ensures Lifetimes.Captured(BOUNDS, OVER.generics) == {Named("a"), Underscore} && Lifetimes.Scoped(OVER, BOUNDS)
    ensures Lifetimes.Names(OVER.generics) == {Named("a"), Named("static")}
  {
    NothingPrecise();
    assert OVER.generics[0].LtParam?;
    var names: set<Lt> := {Named("a"), Named("static")};
    assert Lifetimes.Names(OVER.generics) == names;
    var str := Ref(Absent, false, STR);
    assert Lifetimes.Declared(SELF_TY, names) && Lifetimes.NoDyn(SELF_TY) && Lifetimes.Declared(STR, names);
    assert Lifetimes.Declared(str, names) && Lifetimes.NoDyn(str);
  }

  lemma OverShrinks()
    requires Lifetimes.Names(OVER.generics) == {Named("a"), Named("static")}
    ensures Lifetimes.NoFnElided(OVER)
    ensures Lifetimes.Shrinkable(OVER, {Named("a")}) && !Lifetimes.Shrinkable(OVER, {})
  {
    hide Lifetimes.Names;
    var str, ty, a: set<Lt> := Ref(Absent, false, STR), ArgTy(OVER.inputs[1]), {Named("a")};
    assert !Lifetimes.FnElided(STR) && !Lifetimes.FnElided(str);
    assert Lifetimes.Visible(str) && Lifetimes.Stuck(ty, {}) && !Lifetimes.Shrinks(ty, {});
    assert !Lifetimes.Stuck(STR, a) && !Lifetimes.Stuck(str, a) && !Lifetimes.Stuck(ty, a);
    assert Lifetimes.NamedCo(STR, a, Co) && Lifetimes.NamedCo(str, a, Co) && Lifetimes.Covariant(str, Co);
    Lifetimes.ReceiverShrinks(OVER.inputs[0], a);
  }

  /** `async fn f(&self) -> fn(&str) -> str;` */
  const FN_OUTPUT: Signature := Signature(
    "f", true, [], [], [Receiver(Some(Absent), false, SELF_TY)], Plain(Fn([Ref(Absent, false, STR)], STR)))

  function FnBounds(): seq<Bound> {
    [TraitBound(DynMethod.FUTURE_TY, [Binding("Output", Fn([Ref(Absent, false, STR)], STR))])]
  }

  /** It meets the conditions on the parameters, but in no call of the generated method has the returned
      object the `Output` of the original future: the rewriting enters that function type as well. */
  lemma FnOutput(sc: Scope, args: seq<Sem>)
    ensures var sig := DynMethod.Prepared(FN_OUTPUT);
      sig.output == Opaque(FnBounds()) && Lifetimes.Scoped(sig, FnBounds()) && Lifetimes.Rewritable(sig, FnBounds())
      && Lifetimes.Keeps(sig, FnBounds())
    ensures var sig := DynMethod.Prepared(FN_OUTPUT);
      Fits(Lifetimes.DynSignature(sig, FnBounds(), [], "S"), sc, args) ==>
        |args| == 1 && !Lifetimes.OutputKept(sig, FnBounds(), [], "S", sc, args)
  {
    hide Fits, Lifetimes.DynSignature, Lifetimes.OutputKept, Lifetimes.Rewritable, Lifetimes.CanShrink,
         Lifetimes.NoFnInBounds, Lifetimes.FirstPrecise, Lifetimes.Captured, Lifetimes.FnElided;
    var sig := DynMethod.Prepared(FN_OUTPUT);
    assert sig.inputs == FN_OUTPUT.inputs;
    FnCaptures();
    FnParameters(sig);
    assert Lifetimes.CanShrink(sig, FnBounds(), {});
    if Fits(Lifetimes.DynSignature(sig, FnBounds(), [], "S"), sc, args) {
      OneReceiver(sig, FnBounds(), sc, args);
      Lifetimes.OutputSound(sig, FnBounds(), [], "S", sc, args);
    }
  }

  lemma FnCaptures()
    ensures Lifetimes.FirstPrecise(FnBounds()).None? && Lifetimes.Captured(FnBounds(), []) == {Underscore}
    ensures !Lifetimes.NoFnInBounds(FnBounds())
  {
    var fn := Fn([Ref(Absent, false, STR)], STR);
    assert FnBounds()[1..] == [];
    assert Lifetimes.Visible(fn.params[0]) && Lifetimes.FnElided(fn);
    assert FnBounds()[0].bindings[0].ty == fn;
  }

  lemma FnParameters(sig: Signature)
    requires sig == Signature("f", false, [], [], FN_OUTPUT.inputs, Opaque(FnBounds()))
    requires Lifetimes.FirstPrecise(FnBounds()).None? && Lifetimes.Captured(FnBounds(), []) == {Underscore}
    ensures Lifetimes.Scoped(sig, FnBounds()) && Lifetimes.Rewritable(sig, FnBounds())
    ensures Lifetimes.CanShrink(sig, FnBounds(), {})
  {
    hide Lifetimes.Captured, Lifetimes.FirstPrecise;
    var names: set<Lt> := {Named("static")};
    assert Lifetimes.Names([]) == names;
    assert Lifetimes.Declared(SELF_TY, names) && Lifetimes.NoDyn(SELF_TY);
    Lifetimes.ReceiverShrinks(sig.inputs[0], {});
  }

  lemma OneReceiver(sig: Signature, bounds: seq<Bound>, sc: Scope, args: seq<Sem>)
    requires Fits(Lifetimes.DynSignature(sig, bounds, [], "S"), sc, args)
    ensures |args| == |sig.inputs|
  {}

  const FUTURE_SEND_BOUNDS: seq<Bound> := [
    TraitBound(DynMethod.FUTURE_TY, [Binding("Output", Path(["usize"], [], Co, [], Co))]),
    TraitBound(Path(["Send"], [], Inv, [], Inv), []),
    Precise([CapTy("Self")])
  ]

  /** `fn future_send<'a>(&'_ self, s: &'a str) -> impl Future<Output = usize> + Send + use<Self>;` */
  const FUTURE_SEND: Signature := Signature(
    "future_send", false, [LtParam(Named("a"), [])], [],
    [Receiver(Some(Underscore), false, SELF_TY), Typed(Bind(false, false, "s", None), Ref(Named("a"), false, STR))],
    Opaque(FUTURE_SEND_BOUNDS))

  /** Nothing is captured: the generated method has the same parameters and asks nothing of `'a`, which may
      end before `'__dyn`. */
  lemma FutureSend() returns (sc: Scope, args: seq<Sem>)
    ensures forall l :: !Lifetimes.Captures(FUTURE_SEND_BOUNDS, FUTURE_SEND.generics, l)
    ensures var d := DynMethod.DynSig(FUTURE_SEND, []);
      d.generics == [LtParam(Dyn, []), LtParam(Named("a"), [])] && d.inputs == FUTURE_SEND.inputs
      && Fits(d, sc, args) && !(sc.dyn <= sc.named("a"))
  {
    hide Fits, Lifetimes.Captures, Lifetimes.Captured, Lifetimes.Scoped, Lifetimes.MayEnd, Lifetimes.Names,
         Lifetimes.DynSignature, DynMethod.DynSig;
    NothingListed();
    FutureSendSig();
    FutureSendParts();
    sc, args := Lifetimes.EndingCall(FUTURE_SEND, FUTURE_SEND_BOUNDS, [], DynMethod.StorageName("future_send"),
                                     {Named("a")});
  }

  lemma NothingListed()
    ensures forall l :: !Lifetimes.Captures(FUTURE_SEND_BOUNDS, FUTURE_SEND.generics, l)
    ensures Lifetimes.Captured(FUTURE_SEND_BOUNDS, FUTURE_SEND.generics) == {}
  {
    hide Lifetimes.Captured;
    assert FUTURE_SEND_BOUNDS[2].Precise? && FUTURE_SEND_BOUNDS[2] in FUTURE_SEND_BOUNDS;
    forall l { Lifetimes.CapturedIff(FUTURE_SEND_BOUNDS, FUTURE_SEND.generics, l); }
  }

  lemma FutureSendSig()
    requires Lifetimes.Captured(FUTURE_SEND_BOUNDS, FUTURE_SEND.generics) == {}
    ensures var d := DynMethod.DynSig(FUTURE_SEND, []);
      d == Lifetimes.DynSignature(FUTURE_SEND, FUTURE_SEND_BOUNDS, [], DynMethod.StorageName("future_send"))
      && d.generics == [LtParam(Dyn, []), LtParam(Named("a"), [])] && d.inputs == FUTURE_SEND.inputs
  {
    hide Lifetimes.Captured, Lifetimes.DynBounds, DynMethod.StorageName;
    assert DynMethod.Prepared(FUTURE_SEND) == FUTURE_SEND by {
      assert DynMethod.Prepared(FUTURE_SEND).inputs == FUTURE_SEND.inputs;
    }
    var d := DynMethod.DynSig(FUTURE_SEND, []);
    assert Lifetimes.Rewrite(SELF_TY, {}) == SELF_TY && Lifetimes.Rewrite(STR, {}) == STR;
    assert d.inputs[0] == FUTURE_SEND.inputs[0] && d.inputs[1] == FUTURE_SEND.inputs[1];
    assert d.generics[1] == LtParam(Named("a"), []);
  }

  lemma FutureSendParts()
    requires forall l :: !Lifetimes.Captures(FUTURE_SEND_BOUNDS, FUTURE_SEND.generics, l)
    requires Lifetimes.Captured(FUTURE_SEND_BOUNDS, FUTURE_SEND.generics) == {}
    ensures Lifetimes.Scoped(FUTURE_SEND, FUTURE_SEND_BOUNDS)
    ensures Lifetimes.MayEnd(FUTURE_SEND, FUTURE_SEND_BOUNDS, {Named("a")})
  {
    hide Lifetimes.Captures, Lifetimes.Captured;
    var names: set<Lt>, free: set<Lt> := {Named("a"), Named("static")}, {Named("a")};
    assert FUTURE_SEND.generics[0].LtParam?;
    assert Lifetimes.Names(FUTURE_SEND.generics) == names;
    assert Lifetimes.Declared(SELF_TY, names) && Lifetimes.NoDyn(SELF_TY);
    assert Lifetimes.Declared(STR, names) && Lifetimes.NoDyn(STR);
    assert Lifetimes.Detached(SELF_TY, free, false) && Lifetimes.Detached(STR, free, false);
  }

  const SELF_SEM: Sem := SemPath(SELF, [], Co, [], Co)

  const FOO: Ty := Path(["Foo"], [Named("a")], Co, [], Co)

  /** `fn f<'a>(&'a self, a: Cell<&Foo<'a>>) -> impl Trait;` */
  const NAMED: Signature := Signature(
    "f", false, [LtParam(Named("a"), [])], [],
    [Receiver(Some(Named("a")), false, SELF_TY),
     Typed(Bind(false, false, "a", None), Path(["Cell"], [], Co, [Ref(Absent, false, FOO)], Inv))],
    Opaque(BOUNDS))

  ghost function FooSem(a: Region): Sem { SemPath(["Foo"], [In(a)], Co, [], Co) }

  ghost function NamedArgs(a: Region, d: Region): seq<Sem> {
    [SemRef(In(a), false, SELF_SEM), SemPath(["Cell"], [], Co, [SemRef(In(d), false, FooSem(a))], Inv)]
  }

  lemma NamedCaptures()
    ensures Lifetimes.Captured(BOUNDS, NAMED.generics) == {Named("a"), Underscore}
    ensures Lifetimes.Scoped(NAMED, BOUNDS)
  {
    NothingPrecise();
    assert NAMED.generics[0].LtParam?;
    var names: set<Lt> := {Named("a"), Named("static")};
    assert Lifetimes.Names(NAMED.generics) == names;
    assert Lifetimes.Declared(FOO, names) && Lifetimes.NoDyn(FOO);
    assert Lifetimes.Declared(SELF_TY, names) && Lifetimes.NoDyn(SELF_TY);
    assert Lifetimes.Declared(Ref(Absent, false, FOO), names) && Lifetimes.NoDyn(Ref(Absent, false, FOO));
  }

  lemma FooShape(s: Sem, sc: Scope)
    requires Inst(FOO, s, sc)
    ensures s == FooSem(sc.named("a")) && forall r: Region :: Outlives(s, r, sc) ==> r <= sc.named("a")
  {
    assert s.lts == [s.lts[0]] && s.args == [];
  }

  lemma CellShape(s: Sem, sc: Scope) returns (d: Region)
    requires Inst(ArgTy(NAMED.inputs[1]), s, sc) && WellFormed(s, sc)
    ensures s == SemPath(["Cell"], [], Co, [SemRef(In(d), false, FooSem(sc.named("a")))], Inv)
    ensures d <= sc.named("a") && d <= sc.types(["Foo"])
  {
    hide Outlives;
    var inner := s.args[0];
    assert s.args == [inner] && s.lts == [];
    assert Inst(Ref(Absent, false, FOO), inner, sc) && WellFormed(inner, sc);
    FooShape(inner.to, sc);
    d := inner.lt.region;
    FooOutlives(sc, d);
  }

  lemma FooOutlives(sc: Scope, d: Region)
    ensures Outlives(FooSem(sc.named("a")), d, sc) <==> d <= sc.named("a") && d <= sc.types(["Foo"])
  {
    assert FooSem(sc.named("a")).lts[0] == In(sc.named("a"));
  }

  lemma SelfShape(s: Sem, sc: Scope)
    requires Inst(ArgTy(NAMED.inputs[0]), s, sc) && WellFormed(s, sc)
    ensures s == SemRef(In(sc.named("a")), false, SELF_SEM) && sc.named("a") <= sc.types(SELF)
  {
    assert Inst(SELF_TY, s.to, sc) && s.to.lts == [] && s.to.args == [];
    assert Outlives(SELF_SEM, sc.named("a"), sc);
  }

  /** Both arguments fit the rewritten types, `'__dyn` being the region of the elided lifetime. */
  lemma NamedFits(sc: Scope)
    requires sc.dyn <= sc.named("a") && sc.dyn <= sc.types(["Foo"]) && sc.named("a") <= sc.types(SELF)
    ensures var args := NamedArgs(sc.named("a"), sc.dyn);
      forall i :: 0 <= i < 2 ==>
        Inst(Lifetimes.Rewrite(ArgTy(NAMED.inputs[i]), {Named("a"), Underscore}), args[i], sc)
          && WellFormed(args[i], sc)
  {
    var args, captured: set<Lt> := NamedArgs(sc.named("a"), sc.dyn), {Named("a"), Underscore};
    assert Lifetimes.Rewrite(SELF_TY, captured) == SELF_TY && Lifetimes.Rewrite(FOO, captured) == FOO;
    assert Lifetimes.Rewrite(ArgTy(NAMED.inputs[0]), captured) == ArgTy(NAMED.inputs[0]);
    assert Inst(SELF_TY, SELF_SEM, sc) && WellFormed(SELF_SEM, sc) && Outlives(SELF_SEM, sc.named("a"), sc);
    CellFits(sc);
  }

  lemma CellFits(sc: Scope)
    requires sc.dyn <= sc.named("a") && sc.dyn <= sc.types(["Foo"])
    ensures var s := NamedArgs(sc.named("a"), sc.dyn)[1];
      Inst(Lifetimes.Rewrite(ArgTy(NAMED.inputs[1]), {Named("a"), Underscore}), s, sc) && WellFormed(s, sc)
  {
    var captured: set<Lt> := {Named("a"), Underscore};
    FooOutlives(sc, sc.dyn);
    assert Lifetimes.Rewrite(FOO, captured) == FOO && Inst(FOO, FooSem(sc.named("a")), sc);
    assert Lifetimes.Rewrite(Ref(Absent, false, FOO), captured) == Ref(Dyn, false, FOO);
    assert Inst(Ref(Dyn, false, FOO), SemRef(In(sc.dyn), false, FooSem(sc.named("a"))), sc);
  }

  /** With a named receiver lifetime the completeness condition is not needed: here the elided lifetime
      is at an invariant position, and yet every call of the original method is one of the generated
      method, with that lifetime for `'__dyn`. */
  lemma NamedReceiver(sc: Scope, args: seq<Sem>) returns (sc': Scope)
    requires Fits(NAMED, sc, args)
    ensures !Lifetimes.Keeps(NAMED, BOUNDS)
    ensures sc'.types == sc.types && sc'.named == sc.named && Lifetimes.Usable(NAMED, BOUNDS, [], "S", sc', args)
  {
    hide Inst, WellFormed, Outlives, Sub, Lifetimes.Captured, Lifetimes.Scoped, BoundsHold, Lifetimes.DynSignature;
    NamedCaptures();
    NotKept();
    var d := CellShape(args[1], sc);
    SelfShape(args[0], sc);
    sc' := sc.(dyn := d);
    NamedFits(sc');
    assert args == NamedArgs(sc.named("a"), d);
    NoBounds(sc');
    Lifetimes.DynGenericsHold(NAMED, BOUNDS, [], "S", sc');
    Lifetimes.DynPredsHold(NAMED, BOUNDS, [], "S", sc');
    Lifetimes.DynArgFits(NAMED, BOUNDS, [], "S", 0);
    Lifetimes.DynArgFits(NAMED, BOUNDS, [], "S", 1);
    SubRefl(args[0], Co);
    SubRefl(args[1], Co);
    assert Fits(Lifetimes.DynSignature(NAMED, BOUNDS, [], "S"), sc', args) && Lifetimes.AllSub(args, args);
  }

  lemma NoBounds(sc: Scope)
    ensures BoundsHold(NAMED.generics, sc)
  {}

  lemma NotKept()
    requires Lifetimes.Captured(BOUNDS, NAMED.generics) == {Named("a"), Underscore}
    ensures !Lifetimes.Keeps(NAMED, BOUNDS)
  {
    var cell := ArgTy(NAMED.inputs[1]);
    assert !Lifetimes.Covariant(cell.args[0], Inv);
    assert !Lifetimes.Covariant(cell, Co);
  }

  /** `fn f(&self, a: Self)`: the entry takes the concrete type, its call passes the `DynObject`. */
  lemma BareSelfParameter(types: seq<string>)
    ensures var sig := OneArg(SELF_TY).(output := Unit);
      DynObjectMacro.FnPointerTy(sig, types, true) != DynObjectMacro.FnPointerTy(sig, types, false)
  {
    var sig := OneArg(SELF_TY).(output := Unit);
    var tys := DynObjectMacro.ParamTys(sig.inputs);
    assert sig.inputs[1..] == [sig.inputs[1]] && [sig.inputs[1]][1..] == [];
    assert DynObjectMacro.ParamTys([sig.inputs[1]]) == [SELF_TY];
    assert tys == [SELF_TY];
    DynObjectMacro.TypeAgrees(SELF_TY, types);
    assert DynObjectMacro.FnPointerTy(sig, types, true).params[0] != DynObjectMacro.FnPointerTy(sig, types,
      false).params[0];
  }

  /** `fn f(&self, a: &Self) -> bool;` */
  const SAME: Signature := OneArg(Ref(Absent, false, SELF_TY)).(output := Plain(Path(["bool"], [], Co, [], Co)))

  lemma SameNamesSelf(types: seq<string>)
    ensures DynObjectMacro.NamesSelf(SAME, types)
  {
    var tys := DynObjectMacro.ParamTys(SAME.inputs);
    assert SAME.inputs[1..] == [SAME.inputs[1]] && [SAME.inputs[1]][1..] == [];
    assert DynObjectMacro.ParamTys([SAME.inputs[1]]) == [Ref(Absent, false, SELF_TY)];
    assert tys == [Ref(Absent, false, SELF_TY)] && tys[0] in tys;
    assert DynObjectMacro.BareSelf(SELF_TY, types) && DynObjectMacro.BareSelf(tys[0], types);
  }

  /** A trait with that method is accepted, but the generated trait has no trait objects. */
  lemma SelfParameter(types: seq<string>)
    ensures var items := [FnItem(Method([], SAME))];
      DynTraitMacro.Expand(items, [], DynTraitMacro.NOTHING).Ok?
      && DynTraitLaws.KeptNames(items) == ["f"]
      && !DynTraitLaws.AllDynCompatible(DynTraitMacro.Expand(items, [], DynTraitMacro.NOTHING).value, types)
  {
    hide DynTraitMacro.ItemItems, DynTraitMacro.Expand, DynTraitMacro.Carries, DynTraitLaws.AllDynCompatible,
         DynTraitLaws.AllHidden, DynObjectMacro.NamesSelf, DynTraitMacro.PlainTypes, DynTraitMacro.CallableFns;
    var items := [FnItem(Method([], SAME))];
    assert items[1..] == [] && DynTraitLaws.KeptNames(items[1..]) == [];
    DynTraitLaws.AcceptedIff(items, [], DynTraitMacro.NOTHING);
    DynTraitLaws.ItemLoop(items, [], types);
    SameNamesSelf(types);
    assert !DynTraitLaws.ItemCompatible(items[0], types);
  }

  /** `fn f<U>(&self, u: U)` is refused by `dyn_object` and skipped by `dyn_trait`. */
  lemma GenericMethod(traitTypes: seq<string>)
    ensures var sig := Signature("f", false, [TyParam("U")], [],
                                 [Receiver(Some(Absent), false, SELF_TY),
                                  Typed(Bind(false, false, "u", None), Path(["U"], [], Co, [], Co))], Unit);
      var items := [FnItem(Method([], sig))];
      DynObjectMacro.FirstError(items) == Some(DynObjectMacro.NotDispatchable("f"))
      && DynTraitMacro.Expand(items, traitTypes, DynTraitMacro.NOTHING) == DynTraitMacro.Ok(DynTraitMacro.NOTHING)
  {
    var sig := Signature("f", false, [TyParam("U")], [],
                         [Receiver(Some(Absent), false, SELF_TY),
                          Typed(Bind(false, false, "u", None), Path(["U"], [], Co, [], Co))], Unit);
    var items := [FnItem(Method([], sig))];
    assert sig.generics[0] in sig.generics && !VtableCallable(sig);
    DispatchableIff(sig);
    assert items[1..] == [];
    DynTraitMacro.AppendNothing(DynTraitMacro.NOTHING);
  }

  /** `fn f(self: Pin<&Self>)`: the entry passes a `Pin<&mut Self>`. */
  lemma PinnedShared()
    ensures var a := Receiver(None, false, Path(["Pin"], [], Co, [Ref(Absent, false, SELF_TY)], Co));
      DynObjectMacro.Passes(DynObjectMacro.ReceiverKind(a)) != DynObjectMacro.Declares(a)
  {
  }
}
