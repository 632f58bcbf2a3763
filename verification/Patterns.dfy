/** Parameter patterns turned into argument expressions: `PatternAsArg` and `fn_args`. */
module Patterns {
  import opened Wrappers
  import opened Syntax
  import opened Data

  /** What `PatternAsArg` leaves of a pattern. */
  function Clear(p: Pat): Pat {
    match p
    case Bind(_, _, name, _) => Bind(false, false, name, None)
    case Wild => Wild
    case Tuple(pats) => Tuple(seq(|pats|, i requires 0 <= i < |pats| => Clear(pats[i])))
  }

  /** An identifier pattern, as the visitor updates it. */
  class PatIdent {
    const name: string
    var byRef: bool
    var mut: bool
    var sub: Option<Pat>

    constructor (byRef: bool, mut: bool, name: string, sub: Option<Pat>)
      ensures Pattern() == Bind(byRef, mut, name, sub)
    {
      this.byRef, this.mut, this.name, this.sub := byRef, mut, name, sub;
    }

    function Pattern(): Pat
      reads this
    {
      Bind(byRef, mut, name, sub)
    }

    method VisitPatIdent()
      modifies this
      ensures Pattern() == Clear(old(Pattern()))
    {
      byRef := false;
      mut := false;
      sub := None;
    }
  }

  // ----- binding a value -----

  type Env = map<string, Datum>

  /** The variables a pattern binds when it is matched against a value; `None` when it does not
      match. */
  function Match(p: Pat, v: Datum): Option<Env>
    decreases p, 0
  {
    match p
    case Bind(byRef, _, name, None) => Some(map[name := if byRef then RefTo(v) else v])
    case Bind(byRef, _, name, Some(sub)) =>
      (match Match(sub, v)
       case Some(inner) => Some(inner[name := if byRef then RefTo(v) else v])
       case None => None)
    case Wild => Some(map[])
    case Tuple(pats) => if v.Tup? then MatchAll(pats, v.vals) else None
  }

  function MatchAll(pats: seq<Pat>, vals: seq<Datum>): Option<Env>
    decreases pats, 0
  {
    if |pats| != |vals| then None
    else if pats == [] then Some(map[])
    else match (Match(pats[0], vals[0]), MatchAll(pats[1..], vals[1..]))
      case (Some(first), Some(rest)) => Some(first + rest)
      case _ => None
  }

  /** A pattern read as an expression; `_`, `ref`, `mut` and `@` do not occur in expressions. */
  function Eval(p: Pat, env: Env): Option<Datum>
    decreases p, 0
  {
    match p
    case Bind(false, false, name, None) => if name in env then Some(env[name]) else None
    case Bind(_, _, _, _) => None
    case Wild => None
    case Tuple(pats) => (match EvalAll(pats, env) case Some(vals) => Some(Tup(vals)) case None => None)
  }

  function EvalAll(pats: seq<Pat>, env: Env): Option<seq<Datum>>
    decreases pats, 0
  {
    if pats == [] then Some([])
    else match (Eval(pats[0], env), EvalAll(pats[1..], env))
      case (Some(first), Some(rest)) => Some([first] + rest)
      case _ => None
  }

  function Names(p: Pat): set<string>
    decreases p, 0
  {
    match p
    case Bind(_, _, name, None) => {name}
    case Bind(_, _, name, Some(sub)) => {name} + Names(sub)
    case Wild => {}
    case Tuple(pats) => NamesAll(pats)
  }

  function NamesAll(pats: seq<Pat>): set<string>
    decreases pats, 0
  {
    if pats == [] then {} else Names(pats[0]) + NamesAll(pats[1..])
  }

  /** No name is bound twice in a list of patterns. */
  predicate Distinct(pats: seq<Pat>)
    decreases pats, 0
  {
    pats == [] || (Names(pats[0]) !! NamesAll(pats[1..]) && DistinctIn(pats[0]) && Distinct(pats[1..]))
  }

  predicate DistinctIn(p: Pat)
    decreases p, 0
  {
    match p
    case Bind(_, _, name, Some(sub)) => name !in Names(sub) && DistinctIn(sub)
    case Tuple(pats) => Distinct(pats)
    case _ => true
  }

  /** A pattern whose value can be named again: no wildcard, and nothing bound by reference. */
  predicate Nameable(p: Pat) {
    match p
    case Bind(byRef, _, _, _) => !byRef
    case Wild => false
    case Tuple(pats) => forall i :: 0 <= i < |pats| ==> Nameable(pats[i])
  }

  lemma NameableAll(pats: seq<Pat>)
    ensures Nameable(Tuple(pats)) <==> forall p :: p in pats ==> Nameable(p)
  {
    if Nameable(Tuple(pats)) {
      forall p | p in pats ensures Nameable(p) {
        var i :| 0 <= i < |pats| && pats[i] == p;
      }
    } else {
      var i :| 0 <= i < |pats| && !Nameable(pats[i]);
      assert pats[i] in pats;
    }
  }

  // ----- the round trip -----

  lemma {:induction false} MatchNames(p: Pat, v: Datum)
    requires Match(p, v).Some?
    ensures Match(p, v).value.Keys == Names(p)
    decreases p, 0
  {
    match p
    case Bind(_, _, _, Some(sub)) => MatchNames(sub, v);
    case Bind(_, _, _, None) =>
    case Wild =>
    case Tuple(pats) => MatchAllNames(pats, v.vals);
  }

  lemma {:induction false} MatchAllNames(pats: seq<Pat>, vals: seq<Datum>)
    requires MatchAll(pats, vals).Some?
    ensures MatchAll(pats, vals).value.Keys == NamesAll(pats)
    decreases pats, 0
  {
    if pats != [] {
      MatchNames(pats[0], vals[0]);
      MatchAllNames(pats[1..], vals[1..]);
    }
  }

  lemma {:induction false} NotItself(v: Datum)
    ensures RefTo(v) != v
    decreases v
  {
    if v.RefTo? { NotItself(v.val); }
  }

  predicate Extends(env: Env, m: Env) {
    forall n :: n in m ==> n in env && env[n] == m[n]
  }

  /** The cleared pattern, read where the pattern was bound, names the value exactly when the
      pattern is nameable. */
  lemma {:induction false} Renamed(p: Pat, v: Datum, env: Env)
    requires Match(p, v).Some? && DistinctIn(p) && Extends(env, Match(p, v).value)
    ensures Eval(Clear(p), env) == Some(v) <==> Nameable(p)
    decreases p, 0
  {
    match p
    case Bind(_, _, name, _) =>
      assert name in Match(p, v).value;
      NotItself(v);
    case Wild =>
    case Tuple(pats) =>
      RenamedAll(pats, v.vals, env);
      assert Clear(p).pats == ClearAll(pats);
      NameableAll(pats);
  }

  function ClearAll(pats: seq<Pat>): (r: seq<Pat>)
    ensures |r| == |pats|
  {
    seq(|pats|, i requires 0 <= i < |pats| => Clear(pats[i]))
  }

  lemma {:induction false} RenamedAll(pats: seq<Pat>, vals: seq<Datum>, env: Env)
    requires MatchAll(pats, vals).Some? && Distinct(pats) && Extends(env, MatchAll(pats, vals).value)
    ensures EvalAll(ClearAll(pats), env) == Some(vals) <==> forall p :: p in pats ==> Nameable(p)
    decreases pats, 0
  {
    if pats != [] {
      var first, rest := Match(pats[0], vals[0]).value, MatchAll(pats[1..], vals[1..]).value;
      MatchNames(pats[0], vals[0]);
      MatchAllNames(pats[1..], vals[1..]);
      Renamed(pats[0], vals[0], env);
      RenamedAll(pats[1..], vals[1..], env);
      assert ClearAll(pats)[0] == Clear(pats[0]) && ClearAll(pats)[1..] == ClearAll(pats[1..]);
      assert vals == [vals[0]] + vals[1..];
      if EvalAll(ClearAll(pats), env) == Some(vals) {
        var e, es := Eval(Clear(pats[0]), env), EvalAll(ClearAll(pats[1..]), env);
        assert ([e.value] + es.value)[0] == vals[0] && ([e.value] + es.value)[1..] == es.value;
        assert pats == [pats[0]] + pats[1..];
      }
    }
  }

  /** Clearing twice changes nothing, and what is left binds the whole value by name. */
  lemma {:induction false} Cleared(p: Pat)
    ensures Clear(Clear(p)) == Clear(p)
    ensures Nameable(Clear(p)) <==> !HasWild(p)
    decreases p
  {
    match p
    case Tuple(pats) =>
      forall i | 0 <= i < |pats| { Cleared(pats[i]); }
      assert Clear(Clear(p)).pats == Clear(p).pats;
      if HasWild(p) {
        var i :| 0 <= i < |pats| && HasWild(pats[i]);
        assert !Nameable(Clear(p).pats[i]);
      }
    case _ =>
  }

  /** A wildcard that is not under an identifier. */
  predicate HasWild(p: Pat) {
    match p
    case Bind(_, _, _, _) => false
    case Wild => true
    case Tuple(pats) => exists i :: 0 <= i < |pats| && HasWild(pats[i])
  }

  // ----- parameters and arguments -----

  /** The patterns of the parameters after the receiver. */
  function ParamPats(inputs: seq<Arg>): (r: seq<Pat>)
    ensures |r| <= |inputs|
  {
    if inputs == [] then []
    else (if inputs[0].Typed? then [inputs[0].pat] else []) + ParamPats(inputs[1..])
  }

  /** An argument of a forwarding call: `self`, or a cleared pattern. */
  datatype Expr = SelfExpr | PatExpr(pat: Pat)

  /** `fn_args`. */
  function FnArgs(inputs: seq<Arg>): (r: seq<Expr>)
    ensures |r| == |inputs|
    ensures forall i :: 0 <= i < |r| ==>
      (inputs[i].Receiver? <==> r[i] == SelfExpr) && (inputs[i].Typed? ==> r[i] == PatExpr(Clear(inputs[i].pat)))
  {
    seq(|inputs|, i requires 0 <= i < |inputs| =>
      if inputs[i].Receiver? then SelfExpr else PatExpr(Clear(inputs[i].pat)))
  }

  /** The values of the arguments where the parameters are bound to `vals`. */
  function Forwarded(inputs: seq<Arg>, exprs: seq<Expr>, vals: seq<Datum>): Option<seq<Datum>> {
    match MatchAll(ParamPats(inputs), vals)
    case Some(env) => EvalAll(ExprPats(exprs), env)
    case None => None
  }

  function ExprPats(exprs: seq<Expr>): seq<Pat> {
    if exprs == [] then []
    else (if exprs[0].PatExpr? then [exprs[0].pat] else []) + ExprPats(exprs[1..])
  }

  lemma {:induction false} ExprsAreCleared(inputs: seq<Arg>)
    ensures ExprPats(FnArgs(inputs)) == ClearAll(ParamPats(inputs))
    decreases inputs
  {
    if inputs != [] {
      ExprsAreCleared(inputs[1..]);
      assert FnArgs(inputs)[1..] == FnArgs(inputs[1..]);
    }
  }

  /** Forwarding the arguments passes on every value, in order, exactly when all the parameters are
      nameable. */
  lemma ArgsForwarded(inputs: seq<Arg>, vals: seq<Datum>)
    requires Distinct(ParamPats(inputs)) && MatchAll(ParamPats(inputs), vals).Some?
    ensures Forwarded(inputs, FnArgs(inputs), vals) == Some(vals) <==>
      forall p :: p in ParamPats(inputs) ==> Nameable(p)
  {
    ExprsAreCleared(inputs);
    RenamedAll(ParamPats(inputs), vals, MatchAll(ParamPats(inputs), vals).value);
  }

  /** `PatternAsArg` on a whole signature, which is how `dyn_trait` emits its methods. */
  function ClearInputs(inputs: seq<Arg>): (r: seq<Arg>)
    ensures |r| == |inputs|
    ensures forall i :: 0 <= i < |r| ==> ArgTy(r[i]) == ArgTy(inputs[i])
  {
    seq(|inputs|, i requires 0 <= i < |inputs| =>
      if inputs[i].Typed? then Typed(Clear(inputs[i].pat), inputs[i].ty) else inputs[i])
  }

  /** `Clear` keeps the names distinct and matches what the pattern matches. */
  lemma {:induction false} ClearMatches(p: Pat, v: Datum)
    requires Match(p, v).Some? && DistinctIn(p)
    ensures Match(Clear(p), v).Some? && DistinctIn(Clear(p)) && Names(Clear(p)) <= Names(p)
    decreases p, 0
  {
    match p
    case Tuple(pats) =>
      ClearAllMatch(pats, v.vals);
      assert Clear(p).pats == ClearAll(pats);
    case _ =>
  }

  lemma {:induction false} ClearAllMatch(pats: seq<Pat>, vals: seq<Datum>)
    requires MatchAll(pats, vals).Some? && Distinct(pats)
    ensures MatchAll(ClearAll(pats), vals).Some? && Distinct(ClearAll(pats))
      && NamesAll(ClearAll(pats)) <= NamesAll(pats)
    decreases pats, 0
  {
    if pats != [] {
      ClearMatches(pats[0], vals[0]);
      ClearAllMatch(pats[1..], vals[1..]);
      assert ClearAll(pats)[0] == Clear(pats[0]) && ClearAll(pats)[1..] == ClearAll(pats[1..]);
    }
  }

  lemma {:induction false} ClearTwice(pats: seq<Pat>)
    ensures ClearAll(ClearAll(pats)) == ClearAll(pats)
    ensures (forall p :: p in ClearAll(pats) ==> Nameable(p)) <==> forall p :: p in pats ==> !HasWild(p)
  {
    hide Clear, Nameable, HasWild;
    forall p | p in pats ensures Clear(p) in ClearAll(pats) && (Nameable(Clear(p)) <==> !HasWild(p)) {
      var i :| 0 <= i < |pats| && pats[i] == p;
      assert ClearAll(pats)[i] == Clear(p);
      Cleared(p);
    }
    forall i | 0 <= i < |pats| ensures Clear(Clear(pats[i])) == Clear(pats[i]) { Cleared(pats[i]); }
    assert forall i :: 0 <= i < |pats| ==> pats[i] in pats;
  }

  lemma {:induction false} WildHasNoValue(p: Pat, env: Env)
    requires Eval(Clear(p), env).Some?
    ensures !HasWild(p)
    decreases p, 0
  {
    match p
    case Tuple(pats) =>
      assert Clear(p).pats == ClearAll(pats);
      WildsHaveNoValue(pats, env);
      forall i | 0 <= i < |pats| ensures !HasWild(pats[i]) { assert pats[i] in pats; }
    case _ =>
  }

  lemma {:induction false} WildsHaveNoValue(pats: seq<Pat>, env: Env)
    requires EvalAll(ClearAll(pats), env).Some?
    ensures forall p :: p in pats ==> !HasWild(p)
    decreases pats, 0
  {
    if pats != [] {
      assert ClearAll(pats)[0] == Clear(pats[0]) && ClearAll(pats)[1..] == ClearAll(pats[1..]);
      WildHasNoValue(pats[0], env);
      WildsHaveNoValue(pats[1..], env);
    }
  }

  lemma ExprPatsOfArgs(inputs: seq<Arg>)
    requires |inputs| > 0 && inputs[0].Receiver?
    ensures ExprPats(FnArgs(inputs)[1..]) == ExprPats(FnArgs(inputs)) == ClearAll(ParamPats(inputs))
  {
    ExprsAreCleared(inputs);
  }

  lemma FnArgsCleared(inputs: seq<Arg>)
    ensures FnArgs(ClearInputs(inputs)) == FnArgs(inputs)
      && ParamPats(ClearInputs(inputs)) == ClearAll(ParamPats(inputs))
  {
    hide Clear;
    forall i | 0 <= i < |inputs| && inputs[i].Typed? { ClearOnce(inputs[i].pat); }
    ParamsCleared(inputs);
  }

  lemma ClearOnce(p: Pat)
    ensures Clear(Clear(p)) == Clear(p)
  {
    Cleared(p);
  }

  lemma {:induction false} ParamsCleared(inputs: seq<Arg>)
    ensures ParamPats(ClearInputs(inputs)) == ClearAll(ParamPats(inputs))
    decreases inputs
  {
    if inputs != [] {
      ParamsCleared(inputs[1..]);
      assert ClearInputs(inputs)[1..] == ClearInputs(inputs[1..]);
      var pats := ParamPats(inputs);
      if inputs[0].Typed? { assert ClearAll(pats) == [Clear(pats[0])] + ClearAll(pats[1..])
        && pats[1..] == ParamPats(inputs[1..]); }
    }
  }

  /** With its parameters cleared as well, a forwarding method passes on every value exactly when
      no parameter has a wildcard. */
  lemma ClearedArgsForwarded(inputs: seq<Arg>, vals: seq<Datum>)
    requires Distinct(ParamPats(inputs)) && MatchAll(ParamPats(inputs), vals).Some?
    ensures Forwarded(ClearInputs(inputs), FnArgs(inputs), vals) == Some(vals) <==>
            forall p :: p in ParamPats(inputs) ==> !HasWild(p)
  {
    hide Match, MatchAll, Eval, EvalAll, Clear, Distinct, Nameable, HasWild, ParamPats, ExprPats, FnArgs, ClearInputs;
    FnArgsCleared(inputs);
    ClearAllMatch(ParamPats(inputs), vals);
    ClearTwice(ParamPats(inputs));
    ArgsForwarded(ClearInputs(inputs), vals);
  }
}
