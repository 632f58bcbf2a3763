/** The code `dyn_trait` generates means what the original trait means: whole runs of calls, the
    returned objects being driven by polling or iteration. Returned values live in `DynObject`s of
    any storage. */
module DynTraitRuns {
  import opened Wrappers
  import opened Data
  import opened Syntax
  import opened Patterns
  import opened DynMethod
  import opened DynTraitMacro
  import opened DynTraitLaws
  import opened MaybeSync
  import SyncShortcut
  import Layout
  import Memory
  import Values
  import Client
  import Machine

  // ----- the original trait -----

  type AsyncItem = SyncShortcut.ImplItem<Datum, seq<Datum>, Datum>

  type Fut = SyncShortcut.Fut<Datum, seq<Datum>, Datum>

  /** `rep(f, o)`: the value `o` is the future `f`, compiled. */
  type Rep = (Fut, Hidden) -> bool

  /** `typed(name, args)`: the arguments have the types of the method's parameters. */
  type ArgTypes = (string, seq<Datum>) -> bool

  /** The storage of each method's returned values. */
  type Kinds = string -> Layout.Kind

  type AsyncBody = SyncShortcut.Body<Datum, seq<Datum>, Datum>

  /** A value that an opaque return type stands for: its type, its bytes and the values of the
      `DynObject`s it owns. */
  datatype Hidden = Hidden(ty: Memory.TypeId, data: seq<Memory.byte>, parts: seq<Hidden>)

  /** An implementation of the original trait. A datum `s` is all the state that its code reaches.
      `plain` and `hidden` are what its methods return, `env` has the types of the opaque values, and
      `items` are its async methods after the expansion of `sync`. */
  datatype Impl = Impl(
    env: Values.Env,
    plain: (string, seq<Datum>, Datum) -> (Datum, Datum),
    hidden: (string, seq<Datum>, Datum) -> (Hidden, Datum),
    items: seq<AsyncItem>
  )

  /** A result and the new state, which a method of an opaque value returns together. */
  function Split(r: Datum, s: Datum): (Datum, Datum) {
    if r.Tup? && |r.vals| == 2 then (r.vals[0], r.vals[1]) else (r, s)
  }

  predicate HasEntry(env: Values.Env, o: Hidden, entry: nat) {
    o.ty in env.types && entry < |env.types[o.ty].methods|
  }

  /** A call of a trait method of the value itself. */
  function DriveValue(env: Values.Env, o: Hidden, entry: nat, args: seq<Datum>, s: Datum): (Hidden, Datum, Datum)
    requires HasEntry(env, o, entry)
  {
    var step := env.types[o.ty].methods[entry].step(o.data, args + [s]);
    var (r, s') := Split(step.1, s);
    (o.(data := step.0), r, s')
  }

  /** The method of a future, and what it returns. */
  const POLL: nat := 0

  function PollDatum(p: Poll<Datum>): Datum {
    match p
    case Ready(v) => Tup([v])
    case Pending => Tup([])
    case Panicked => Atom(0)
  }

  function DatumPoll(d: Datum): Poll<Datum> {
    if d.Tup? && |d.vals| == 1 then Ready(d.vals[0]) else if d == Tup([]) then Pending else Panicked
  }

  lemma PollRoundTrip(p: Poll<Datum>)
    ensures DatumPoll(PollDatum(p)) == p
  {}

  /** A destructor that runs: the type and the bytes of the value. */
  datatype End = End(ty: Memory.TypeId, data: seq<Memory.byte>)

  /** The destructors that dropping a value runs: its own, if its type has one, then those of the
      objects it owns. */
  function EndsOf(env: Values.Env, o: Hidden): seq<End> {
    (if o.ty in env.types && env.types[o.ty].userDrop then [End(o.ty, o.data)] else []) + AllEnds(env, o.parts)
  }

  function AllEnds(env: Values.Env, os: seq<Hidden>): seq<End> {
    if os == [] then [] else AllEnds(env, os[..|os| - 1]) + EndsOf(env, os[|os| - 1])
  }

  /** A returned value, and whether it is used as a future only; or one that was dropped. */
  datatype Held = Held(o: Hidden, future: bool) | Gone

  datatype Outcome = Result(v: Datum) | Polled(p: Poll<Datum>) | Created | Ended

  datatype Op =
    | Call(index: nat, args: seq<Datum>)
    | CallAndPoll(index: nat, args: seq<Datum>)
    | Drive(handle: nat, entry: nat, args: seq<Datum>)
    | Drop(handle: nat)

  /** A client of the original trait: the state, the values it was given and the destructors run. */
  datatype Orig = Orig(s: Datum, hs: seq<Held>, ends: seq<End>)

  function OrigDrive(env: Values.Env, h: Held, entry: nat, args: seq<Datum>, s: Datum): Option<(Held, Datum, Outcome)> {
    if h.Gone? || !HasEntry(env, h.o, entry) then None else
    var (o, r, s') := DriveValue(env, h.o, entry, args, s);
    Some((Held(o, h.future), s', if h.future then Polled(DatumPoll(r)) else Result(r)))
  }

  function OrigStep(impl: Impl, fns: seq<Method>, a: Orig, op: Op): Option<(Orig, Outcome)> {
    match op
    case Call(m, args) =>
      if m >= |fns| then None
      else if HasRpit(fns[m].sig) then
        var (o, s) := impl.hidden(fns[m].sig.name, args, a.s);
        Some((Orig(s, a.hs + [Held(o, IsMaybeSync(fns[m]))], a.ends), Created))
      else
        var (v, s) := impl.plain(fns[m].sig.name, args, a.s);
        Some((a.(s := s), Result(v)))
    case CallAndPoll(m, args) =>
      if m >= |fns| then None else
      var (o, s) := impl.hidden(fns[m].sig.name, args, a.s);
      (match OrigDrive(impl.env, Held(o, IsMaybeSync(fns[m])), POLL, [], s)
       case None => None
       case Some((h, s', r)) => Some((Orig(s', a.hs + [h], a.ends), r)))
    case Drive(k, entry, args) =>
      if k >= |a.hs| then None
      else (match OrigDrive(impl.env, a.hs[k], entry, args, a.s)
            case None => None
            case Some((h, s, r)) => Some((Orig(s, a.hs[k := h], a.ends), r)))
    case Drop(k) =>
      if k >= |a.hs| || a.hs[k].Gone? then None
      else Some((Orig(a.s, a.hs[k := Gone], a.ends + EndsOf(impl.env, a.hs[k].o)), Ended))
  }

  function OrigRun(impl: Impl, fns: seq<Method>, a: Orig, ops: seq<Op>): Option<(Orig, seq<Outcome>)>
    decreases ops
  {
    if ops == [] then Some((a, [])) else
    match OrigStep(impl, fns, a, ops[0])
    case None => None
    case Some((b, r)) =>
      match OrigRun(impl, fns, b, ops[1..])
      case None => None
      case Some((c, rs)) => Some((c, [r] + rs))
  }

  // ----- the generated trait -----

  /** What a generated method returns: a `DynObject` in variable `x`, or a `MaybeSync` of one. */
  datatype Object = InVar(x: nat) | Maybe(m: MaybeSync<nat, Datum>) | NoObject

  datatype Returned = Returns(v: Datum) | ReturnsObject(o: Object)

  /** The client of the generated trait: its variables, the state and the objects it was given. */
  datatype Session = Session(w: Client.World, s: Datum, objects: seq<Object>)

  /** Building a value in a new variable: the objects it owns first, each in the storage that its type
      says. */
  function Build(env: Values.Env, w: Client.World, o: Hidden): (Client.World, nat)
    decreases o, 0
  {
    if o.ty !in env.types || |o.parts| != |env.types[o.ty].fields| then (w, 0) else
    var (w', vars) := BuildParts(env, w, o.parts, env.types[o.ty].fields);
    (Client.Next(env, w', Client.Make(o.ty, o.data, vars)).0, |w'.slots|)
  }

  function BuildParts(env: Values.Env, w: Client.World, os: seq<Hidden>, fields: seq<Values.Field>)
    : (r: (Client.World, seq<nat>))
    requires |os| <= |fields|
    ensures |r.1| == |os|
    decreases os, 0
  {
    if os == [] then (w, []) else
    var last := |os| - 1;
    var (w1, vars) := BuildParts(env, w, os[..last], fields);
    var (w2, x) := WrapValue(env, fields[last].kind, w1, os[last]);
    (w2, vars + [x])
  }

  /** `DynObject::new(value)` with storage `kind`: the variable that the object is in. */
  function WrapValue(env: Values.Env, kind: Layout.Kind, w: Client.World, o: Hidden): (Client.World, nat)
    decreases o, 1
  {
    var (w', x) := Build(env, w, o);
    (Client.Next(env, w', Client.New(kind, x)).0, |w'.slots|)
  }

  /** A call of a trait method on the `DynObject` in variable `x`, through its vtable. */
  function DriveVar(env: Values.Env, w: Client.World, x: nat, entry: nat, args: seq<Datum>, s: Datum)
    : Option<(Client.World, Datum, Datum)>
  {
    match Client.Next(env, w, Client.Use(x, [], Client.Action.Call(entry, args + [s])))
    case (w', Returned(r)) => var (v, s') := Split(r, s); Some((w', v, s'))
    case _ => None
  }

  function PollVar(env: Values.Env, x: nat, t: (Client.World, Datum)): (nat, (Client.World, Datum), Poll<Datum>) {
    match DriveVar(env, t.0, x, POLL, [], t.1)
    case Some((w, r, s)) => (x, (w, s), DatumPoll(r))
    case None => (x, t, Panicked)
  }

  /** A method of a returned object; a `MaybeSync` is only a future. */
  function DriveObject(env: Values.Env, w: Client.World, o: Object, entry: nat, args: seq<Datum>, s: Datum)
    : Option<(Client.World, Object, Datum, Outcome)>
  {
    match o
    case InVar(x) =>
      (match DriveVar(env, w, x, entry, args, s)
       case None => None
       case Some((w', r, s')) => Some((w', o, s', Result(r))))
    case Maybe(m) =>
      if entry != POLL || args != [] then None else
      var (m', t, p) := PollStep(m, (w, s), (x, t) => PollVar(env, x, t));
      Some((t.0, Maybe(m'), t.1, Polled(p)))
    case NoObject => None
  }

  function FindImpl(items: seq<ImplItem>, name: string): (r: Option<ImplItem>)
    ensures r.Some? ==> r.value.ImplFn? && r.value.sig.name == name
  {
    if items == [] then None
    else if items[0].ImplFn? && items[0].sig.name == name then Some(items[0])
    else FindImpl(items[1..], name)
  }

  /** The synchronous function that a generated body calls. */
  function SyncBody(items: seq<AsyncItem>, name: string): Option<AsyncBody> {
    match SyncShortcut.Lookup(items, name)
    case None => None
    case Some(fn) => if !fn.isAsync && SyncShortcut.AwaitFree(fn.body) then Some(fn.body) else None
  }

  /** Runs the body of a generated method on its bound parameters; its names are looked up where the
      macro's output says. */
  function RunBody(impl: Impl, kind: Layout.Kind, f: ImplItem, w: Client.World, s: Datum, args: seq<Datum>)
    : Option<(Client.World, Datum, Returned)>
    requires f.ImplFn?
  {
    match Forwarded(f.sig.inputs, f.body.args, args)
    case None => None
    case Some(passed) =>
      match f.body
      case Forward(callee, _) => var (v, s') := impl.plain(callee, passed, s); Some((w, s', Returns(v)))
      case Wrap(callee, _) =>
        var (o, s') := impl.hidden(callee, passed, s);
        var (w', x) := WrapValue(impl.env, kind, w, o);
        Some((w', s', ReturnsObject(InVar(x))))
      case IfSync(isSync, sync, callee, _) =>
        if SyncShortcut.ConstValue(impl.items, isSync) then
          match SyncBody(impl.items, sync)
          case None => None
          case Some(b) =>
            assert SyncShortcut.AwaitFree(b);
            var (s', v) := SyncShortcut.RunSync(b, s, passed);
            Some((w, s', ReturnsObject(Maybe(Sync(v)))))
        else
          var (o, s') := impl.hidden(callee, passed, s);
          var (w', x) := WrapValue(impl.env, kind, w, o);
          Some((w', s', ReturnsObject(Maybe(Async(x)))))
  }

  /** Dropping a returned object drops the `DynObject`, if there is one. */
  function DropObject(env: Values.Env, w: Client.World, d: Object): Client.World {
    match VarOf(d)
    case Some(x) => Client.Next(env, w, Client.Drop(x)).0
    case None => w
  }

  function VarOf(d: Object): Option<nat> {
    match d
    case InVar(x) => Some(x)
    case Maybe(Async(x)) => Some(x)
    case _ => None
  }

  /** `kinds` has the storage of each method. */
  function DynStep(impl: Impl, kinds: Kinds, items: seq<ImplItem>, fns: seq<Method>, c: Session, op: Op)
    : Option<(Session, Outcome)>
  {
    match op
    case Drive(k, entry, args) =>
      if k >= |c.objects| then None
      else (match DriveObject(impl.env, c.w, c.objects[k], entry, args, c.s)
            case None => None
            case Some((w, o, s, r)) => Some((Session(w, s, c.objects[k := o]), r)))
    case Drop(k) =>
      if k >= |c.objects| || c.objects[k].NoObject? then None
      else Some((Session(DropObject(impl.env, c.w, c.objects[k]), c.s, c.objects[k := NoObject]), Ended))
    case _ =>
      if op.index >= |fns| then None
      else match FindImpl(items, fns[op.index].sig.name)
        case None => None
        case Some(f) =>
          match RunBody(impl, kinds(fns[op.index].sig.name), f, c.w, c.s, op.args)
          case None => None
          case Some((w, s, Returns(v))) => if op.CallAndPoll? then None else Some((Session(w, s, c.objects), Result(v)))
          case Some((w, s, ReturnsObject(o))) =>
            if op.Call? then Some((Session(w, s, c.objects + [o]), Created))
            else match DriveObject(impl.env, w, o, POLL, [], s)
              case None => None
              case Some((w', o', s', r)) => Some((Session(w', s', c.objects + [o']), r))
  }

  function DynRun(impl: Impl, kinds: Kinds, items: seq<ImplItem>, fns: seq<Method>, c: Session, ops: seq<Op>)
    : Option<(Session, seq<Outcome>)>
    decreases ops
  {
    if ops == [] then Some((c, [])) else
    match DynStep(impl, kinds, items, fns, c, ops[0])
    case None => None
    case Some((c', r)) =>
      match DynRun(impl, kinds, items, fns, c', ops[1..])
      case None => None
      case Some((c'', rs)) => Some((c'', [r] + rs))
  }

  // ----- async methods -----

  /** `rep` is right about how compiled futures are polled; they have no destructor of their own. */
  ghost predicate Compiled(env: Values.Env, rep: Rep) {
    (forall f: Fut, o: Hidden, s: Datum :: rep(f, o) ==> PollsAs(env, rep, f, o, s))
    && forall f: Fut, o: Hidden :: rep(f, o) && (f.Todo? ==> SyncShortcut.AwaitFree(f.body)) ==> EndsOf(env, o) == []
  }

  ghost predicate PollsAs(env: Values.Env, rep: Rep, f: Fut, o: Hidden, s: Datum) {
    var (f', s', p) := SyncShortcut.PollFut(f, s);
    HasEntry(env, o, POLL) && DriveValue(env, o, POLL, [], s).1 == PollDatum(p)
      && DriveValue(env, o, POLL, [], s).2 == s'
    && rep(f', DriveValue(env, o, POLL, [], s).0)
  }

  type Decls = seq<SyncShortcut.Decl<Datum, seq<Datum>, Datum>>

  /** What the compiler makes of async methods: the `impl` has the items that `sync` leaves, and each
      method, called with arguments of its parameters' types, returns its future and does nothing. */
  ghost predicate AsyncMethods(impl: Impl, rep: Rep, typed: ArgTypes, decls: Decls) {
    impl.items == SyncShortcut.ItemsOf(decls) && SyncShortcut.NoClash(decls) && SyncShortcut.Decorable(decls)
    && Compiled(impl.env, rep)
    && forall k, args, s :: 0 <= k < |decls| && typed(decls[k].fn.name, args) ==>
         Starts(impl, rep, decls[k].fn, args, s)
  }

  ghost predicate Starts(impl: Impl, rep: Rep, fn: SyncShortcut.ImplFn<Datum, seq<Datum>, Datum>,
                         args: seq<Datum>, s: Datum) {
    impl.hidden(fn.name, args, s).1 == s && rep(SyncShortcut.Todo(fn.body, args), impl.hidden(fn.name, args, s).0)
  }

  /** The method has a shortcut. */
  predicate HasShortcut(impl: Impl, name: string) { SyncShortcut.IsSync(impl.items, name) }

  /** The shortcut's body can be polled late. */
  ghost predicate InertCall(impl: Impl, name: string, args: seq<Datum>) {
    var b := SyncBody(impl.items, SyncShortcut.SyncFn(name));
    b.Some? && SyncShortcut.AwaitFree(b.value) && SyncShortcut.Inert(b.value, args)
  }

  /** The shortcut of a method is its async body, and the value it returns is that body's future. */
  lemma ShortcutBody(impl: Impl, rep: Rep, typed: ArgTypes, decls: Decls,
                     name: string, args: seq<Datum>, s: Datum) returns (b: AsyncBody)
    requires AsyncMethods(impl, rep, typed, decls) && HasShortcut(impl, name) && typed(name, args)
    ensures SyncBody(impl.items, SyncShortcut.SyncFn(name)) == Some(b) && SyncShortcut.AwaitFree(b)
    ensures impl.hidden(name, args, s).1 == s && rep(SyncShortcut.Todo(b, args), impl.hidden(name, args, s).0)
  {
    hide Compiled, SyncShortcut.NoClash;
    var k := SyncShortcut.OnlyDecorated(decls, name);
    SyncShortcut.FoundDecl(decls, k);
    b := decls[k].fn.body;
    assert Starts(impl, rep, decls[k].fn, args, s);
  }

  /** The first poll of such a value does what the shortcut does, and it is then finished. */
  lemma FirstPollOf(env: Values.Env, rep: Rep, b: AsyncBody,
                    args: seq<Datum>, o: Hidden, s: Datum)
    requires Compiled(env, rep) && SyncShortcut.AwaitFree(b) && rep(SyncShortcut.Todo(b, args), o)
    ensures HasEntry(env, o, POLL)
    ensures var (s', v) := SyncShortcut.RunSync(b, s, args);
      DriveValue(env, o, POLL, [], s).1 == PollDatum(Ready(v)) && DriveValue(env, o, POLL, [], s).2 == s'
      && rep(SyncShortcut.Finished, DriveValue(env, o, POLL, [], s).0)
  {
    hide DriveValue, HasEntry, SyncShortcut.RunSync;
    assert PollsAs(env, rep, SyncShortcut.Todo(b, args), o, s);
    SyncShortcut.FirstPoll(b, s, args);
  }

  // ----- the relation -----

  /** The tree is that of the value. */
  predicate IsTree(n: Client.Node, o: Hidden) {
    n.ty == o.ty && n.data == o.data && |n.kids| == |o.parts|
    && forall i :: 0 <= i < |n.kids| ==> IsTree(n.kids[i], o.parts[i])
  }

  /** The variable `x` holds the value `o`, in a `DynObject`. */
  predicate InSlot(w: Client.World, x: nat, o: Hidden) {
    x < |w.slots| && w.slots[x].Dyn? && IsTree(w.slots[x].v, o)
  }

  /** The destructors of a log of dropped values. */
  ghost function EndsOfLog(env: Values.Env, log: seq<Client.Dropped>): seq<End> {
    EndsOfUsers(Machine.UserLog(env, log))
  }

  ghost function EndsOfUsers(log: seq<Client.Dropped>): (r: seq<End>)
    ensures |r| == |log|
  {
    seq(|log|, i requires 0 <= i < |log| => End(log[i].ty, log[i].data))
  }

  /** A value that is ready with `v` whenever it is polled, and has no effect. */
  ghost predicate Waits(rep: Rep, o: Hidden, v: Datum) {
    exists b, args :: rep(SyncShortcut.Todo(b, args), o) && WaitsBody(b, args, v)
  }

  ghost predicate WaitsBody(b: AsyncBody, args: seq<Datum>, v: Datum) {
    SyncShortcut.AwaitFree(b) && forall t :: SyncShortcut.RunSync(b, t, args) == (t, v)
  }

  /** The object of the generated trait stands for the value of the original one. */
  ghost predicate Stands(rep: Rep, w: Client.World, h: Held, d: Object) {
    match d
    case InVar(x) => h.Held? && !h.future && InSlot(w, x, h.o)
    case Maybe(Async(x)) => h.Held? && h.future && InSlot(w, x, h.o)
    case Maybe(Sync(v)) => h.Held? && h.future && Waits(rep, h.o, v)
    case Maybe(SyncPolled) => h.Held? && h.future && rep(SyncShortcut.Finished, h.o)
    case NoObject => h.Gone?
  }

  ghost predicate Apart(ds: seq<Object>) {
    forall i, j :: 0 <= i < j < |ds| && VarOf(ds[i]).Some? ==> VarOf(ds[i]) != VarOf(ds[j])
  }

  /** The two clients: the same state, objects that stand for the values, and the same destructors. */
  ghost predicate AllStand(env: Values.Env, rep: Rep, a: Orig, c: Session) {
    c.s == a.s && EndsOfLog(env, c.w.log) == a.ends && |a.hs| == |c.objects| && Apart(c.objects)
    && forall i :: 0 <= i < |a.hs| ==> Stands(rep, c.w, a.hs[i], c.objects[i])
  }

  // ----- what the client does -----

  /** The value is one of its type, and so are the objects it owns, in storages that accept them. */
  predicate WellTyped(env: Values.Env, o: Hidden) {
    o.ty in env.types && |o.data| == env.types[o.ty].plain && |o.parts| == |env.types[o.ty].fields|
    && forall i :: 0 <= i < |o.parts| ==>
         Client.Accepts(env, env.types[o.ty].fields[i].kind, o.parts[i].ty) && WellTyped(env, o.parts[i])
  }

  /** `DynObject::new` compiles for the value. */
  predicate Storable(env: Values.Env, kind: Layout.Kind, o: Hidden) {
    Client.Accepts(env, kind, o.ty) && WellTyped(env, o)
  }

  predicate ArgsOk(sig: Signature, args: seq<Datum>) {
    Distinct(ParamPats(sig.inputs)) && MatchAll(ParamPats(sig.inputs), args).Some?
    && forall p :: p in ParamPats(sig.inputs) ==> !HasWild(p)
  }

  /** What the client of the generated trait can do: the arguments have their types and match the
      parameters, which have no wildcard; returned values can be stored; a method with a shortcut is
      polled when it is called, or its body is inert; and a `maybe_sync` result is only polled. Values
      are dropped once. */
  ghost predicate OpOk(impl: Impl, kinds: Kinds, typed: ArgTypes, fns: seq<Method>, a: Orig, op: Op) {
    match op
    case Drive(k, entry, args) =>
      k < |a.hs| && a.hs[k].Held? && HasEntry(impl.env, a.hs[k].o, entry)
      && (a.hs[k].future ==> entry == POLL && args == [])
    case Drop(k) => k < |a.hs| && a.hs[k].Held?
    case _ =>
      op.index < |fns| && ArgsOk(fns[op.index].sig, op.args) && typed(fns[op.index].sig.name, op.args)
      && (HasRpit(fns[op.index].sig) ==>
            Storable(impl.env, kinds(fns[op.index].sig.name), impl.hidden(fns[op.index].sig.name, op.args, a.s).0))
      && (op.CallAndPoll? ==>
            IsMaybeSync(fns[op.index]) && HasRpit(fns[op.index].sig)
            && HasEntry(impl.env, impl.hidden(fns[op.index].sig.name, op.args, a.s).0, POLL))
      && (op.Call? && IsMaybeSync(fns[op.index]) && HasShortcut(impl, fns[op.index].sig.name) ==>
            InertCall(impl, fns[op.index].sig.name, op.args))
  }

  /** Every step of the client's run is such, in the original trait's terms. */
  ghost predicate RunOk(impl: Impl, kinds: Kinds, typed: ArgTypes, fns: seq<Method>, a: Orig, ops: seq<Op>)
    decreases ops
  {
    ops == [] ||
    (OpOk(impl, kinds, typed, fns, a, ops[0])
     && (match OrigStep(impl, fns, a, ops[0])
         case None => false
         case Some((b, _)) => RunOk(impl, kinds, typed, fns, b, ops[1..])))
  }

  // ----- finding the generated method -----

  predicate DistinctMethods(fns: seq<Method>) {
    forall i, j :: 0 <= i < j < |fns| ==> fns[i].sig.name != fns[j].sig.name
  }

  function BodyOf(fn: Method): Body {
    var name, args := fn.sig.name, FnArgs(fn.sig.inputs);
    if IsMaybeSync(fn) then IfSync(SyncShortcut.IsSyncConst(name), SyncShortcut.SyncFn(name), name, args)
    else if HasRpit(fn.sig) then Wrap(name, args)
    else Forward(name, args)
  }

  /** `f` is the generated method of `fn`. */
  predicate Generates(fn: Method, f: ImplItem) {
    f.ImplFn? && f.sig.name == fn.sig.name && ParamPats(f.sig.inputs) == ClearAll(ParamPats(fn.sig.inputs))
    && (IsMaybeSync(fn) ==> HasRpit(fn.sig))
    && f.body == BodyOf(fn) && StandsFor(f.sig, f.body, fn)
  }

  lemma ItemGenerates(item: Item, traitTypes: seq<string>)
    requires Kept(item) && item.FnItem? && ItemItems(item, traitTypes).Ok?
    ensures var impls := ItemItems(item, traitTypes).value.implItems;
      |impls| == 1 && Generates(item.fn, impls[0])
  {
    hide Prepared, FnArgs, FutureOutput, HasOption, HasDynTraitAttr, Dispatchable, DynSig, ParamPats;
    var sig := item.fn.sig;
    AttrsParse(item.fn.attrs, sig, NO_ATTRS);
    RewrittenIff(sig, traitTypes);
    Desugars(sig);
    Signed(sig, traitTypes);
  }

  lemma ItemGeneratesNone(item: Item, traitTypes: seq<string>)
    requires !(Kept(item) && item.FnItem?) && ItemItems(item, traitTypes).Ok?
    ensures forall f :: f in ItemItems(item, traitTypes).value.implItems ==> f.ImplType?
  {
  }

  lemma {:induction false} FindLater(a: seq<ImplItem>, b: seq<ImplItem>, name: string)
    requires forall f :: f in a && f.ImplFn? ==> f.sig.name != name
    ensures FindImpl(a + b, name) == FindImpl(b, name)
    decreases a
  {
    if a == [] {
      assert a + b == b;
    } else {
      assert (a + b)[1..] == a[1..] + b;
      FindLater(a[1..], b, name);
    }
  }

  lemma {:induction false} FindHere(a: seq<ImplItem>, b: seq<ImplItem>, name: string)
    requires FindImpl(a, name).Some?
    ensures FindImpl(a + b, name) == FindImpl(a, name)
    decreases a
  {
    assert (a + b)[0] == a[0] && (a + b)[1..] == a[1..] + b;
    if !(a[0].ImplFn? && a[0].sig.name == name) { FindHere(a[1..], b, name); }
  }

  /** The name of every kept method leads to its generated method. */
  lemma {:induction false} Finds(items: seq<Item>, traitTypes: seq<string>, acc: Generated, i: nat)
    requires Expand(items, traitTypes, acc).Ok? && DistinctMethods(CallableFns(items)) && i < |CallableFns(items)|
    requires forall f :: f in acc.implItems && f.ImplFn? ==> f.sig.name != CallableFns(items)[i].sig.name
    ensures var found := FindImpl(Expand(items, traitTypes, acc).value.implItems, CallableFns(items)[i].sig.name);
      found.Some? && Generates(CallableFns(items)[i], found.value)
    decreases items
  {
    hide ItemItems, Kept, VtableCallable, Generates, FindImpl;
    KeptIff(items[0]);
    var fns, rest := CallableFns(items), CallableFns(items[1..]);
    var g := ItemItems(items[0], traitTypes).value;
    var now := Append(acc, g);
    if items[0].FnItem? && Kept(items[0]) {
      ItemGenerates(items[0], traitTypes);
      GeneratedName(items[0].fn, g.implItems[0]);
      assert g.implItems == [g.implItems[0]] && fns[1..] == rest;
      if i == 0 {
        FindOne(g.implItems[0], fns[0].sig.name);
        FindLater(acc.implItems, g.implItems, fns[0].sig.name);
        Extends(items[1..], traitTypes, now, fns[0].sig.name);
      } else {
        assert fns[0] == items[0].fn && fns[0].sig.name != fns[i].sig.name;
        assert fns[i] == rest[i - 1] && forall j :: 0 <= j < |rest| ==> rest[j] == fns[j + 1];
        Finds(items[1..], traitTypes, now, i - 1);
      }
    } else {
      ItemGeneratesNone(items[0], traitTypes);
      assert fns == rest;
      Finds(items[1..], traitTypes, now, i);
    }
  }

  lemma KeptIff(item: Item)
    ensures item.FnItem? ==> (Kept(item) <==> VtableCallable(item.fn.sig))
  {
    hide Dispatchable, VtableCallable;
    if item.FnItem? { DispatchableIff(item.fn.sig); }
  }

  lemma GeneratedName(fn: Method, f: ImplItem)
    requires Generates(fn, f)
    ensures f.ImplFn? && f.sig.name == fn.sig.name
  {
  }

  lemma FindOne(f: ImplItem, name: string)
    requires f.ImplFn? && f.sig.name == name
    ensures FindImpl([f], name) == Some(f)
  {
  }

  /** What has been generated stays where it is. */
  lemma {:induction false} Extends(items: seq<Item>, traitTypes: seq<string>, acc: Generated, name: string)
    requires Expand(items, traitTypes, acc).Ok? && FindImpl(acc.implItems, name).Some?
    ensures FindImpl(Expand(items, traitTypes, acc).value.implItems, name) == FindImpl(acc.implItems, name)
    decreases items
  {
    hide ItemItems, FindImpl;
    if items != [] {
      var g := ItemItems(items[0], traitTypes).value;
      FindHere(acc.implItems, g.implItems, name);
      Extends(items[1..], traitTypes, Append(acc, g), name);
    }
  }

  // ----- preservation -----

  /** A generated method passes its arguments on. */
  lemma BodyForwards(fn: Method, f: ImplItem, args: seq<Datum>)
    requires Generates(fn, f) && ArgsOk(fn.sig, args)
    ensures Forwarded(f.sig.inputs, f.body.args, args) == Some(args)
  {
    hide Match, MatchAll, Eval, EvalAll, Clear, Distinct, HasWild, ParamPats, ExprPats, FnArgs, ClearInputs,
         IsMaybeSync;
    FnArgsCleared(fn.sig.inputs);
    ClearedArgsForwarded(fn.sig.inputs, args);
  }

  /** New variables only: the others, and what was dropped, are as they were. */
  predicate Grown(w: Client.World, w': Client.World) {
    |w.slots| <= |w'.slots| && w'.log == w.log && forall y :: 0 <= y < |w.slots| ==> w'.slots[y] == w.slots[y]
  }

  /** Each part is in a variable of its own, past those of `w`. */
  predicate InParts(w: Client.World, w': Client.World, vars: seq<nat>, os: seq<Hidden>, fields: seq<Values.Field>) {
    |vars| == |os| <= |fields|
    && (forall i :: 0 <= i < |vars| ==>
          |w.slots| <= vars[i] < |w'.slots| && InSlot(w', vars[i], os[i]) && w'.slots[vars[i]].kind == fields[i].kind)
    && forall i, j :: 0 <= i < j < |vars| ==> vars[i] < vars[j]
  }

  /** `Make` moves the parts into the value. */
  lemma Made(env: Values.Env, w: Client.World, w': Client.World, vars: seq<nat>, o: Hidden)
    requires WellTyped(env, o) && InParts(w, w', vars, o.parts, env.types[o.ty].fields) && Grown(w, w')
    ensures var w2 := Client.Next(env, w', Client.Make(o.ty, o.data, vars)).0;
      Grown(w, w2) && |w2.slots| == |w'.slots| + 1
      && w2.slots[|w'.slots|].Value? && IsTree(w2.slots[|w'.slots|].v, o)
  {
    hide Client.Accepts;
    var op := Client.Make(o.ty, o.data, vars);
    forall i | 0 <= i < |vars|
      ensures Client.IsDyn(Client.ShapesOf(w'.slots), vars[i], env.types[o.ty].fields[i].kind)
    {
      assert InSlot(w', vars[i], o.parts[i]);
    }
    assert Client.Compiles(env, Client.ShapesOf(w'.slots), op);
    assert forall y :: 0 <= y < |w.slots| ==> y !in vars;
  }

  /** `DynObject::new` moves the value into a new variable. */
  lemma Newed(env: Values.Env, w: Client.World, w': Client.World, x: nat, kind: Layout.Kind, o: Hidden)
    requires Client.Accepts(env, kind, o.ty) && Grown(w, w') && |w.slots| <= x < |w'.slots|
    requires w'.slots[x].Value? && IsTree(w'.slots[x].v, o)
    ensures var w2 := Client.Next(env, w', Client.New(kind, x)).0;
      Grown(w, w2) && |w2.slots| == |w'.slots| + 1 && InSlot(w2, |w'.slots|, o) && w2.slots[|w'.slots|].kind == kind
      && forall y :: 0 <= y < |w'.slots| && y != x ==> w2.slots[y] == w'.slots[y]
  {
    hide Client.Accepts, IsTree;
    TreeType(w'.slots[x].v, o);
    assert Client.Compiles(env, Client.ShapesOf(w'.slots), Client.New(kind, x));
  }

  lemma TreeType(n: Client.Node, o: Hidden)
    requires IsTree(n, o)
    ensures n.ty == o.ty
  {}

  /** Building puts the value in a new variable and leaves the others alone. */
  lemma {:induction false} Built(env: Values.Env, w: Client.World, o: Hidden)
    requires WellTyped(env, o)
    ensures var (w', x) := Build(env, w, o);
      Grown(w, w') && |w.slots| <= x < |w'.slots| && w'.slots[x].Value? && IsTree(w'.slots[x].v, o)
    decreases o, 1
  {
    hide Client.Next, IsTree, InParts;
    BuiltParts(env, w, o, |o.parts|);
    assert o.parts[..|o.parts|] == o.parts;
    var (w', vars) := BuildParts(env, w, o.parts, env.types[o.ty].fields);
    Made(env, w, w', vars, o);
  }

  lemma {:induction false} BuiltParts(env: Values.Env, w: Client.World, o: Hidden, n: nat)
    requires WellTyped(env, o) && n <= |o.parts|
    ensures var (w', vars) := BuildParts(env, w, o.parts[..n], env.types[o.ty].fields);
      Grown(w, w') && InParts(w, w', vars, o.parts[..n], env.types[o.ty].fields)
    decreases o, 0, n
  {
    hide Client.Next, IsTree, Build;
    if n > 0 {
      BuiltParts(env, w, o, n - 1);
      assert o.parts[..n][..n - 1] == o.parts[..n - 1];
      var fields := env.types[o.ty].fields;
      var (w1, vars) := BuildParts(env, w, o.parts[..n - 1], fields);
      Built(env, w1, o.parts[n - 1]);
      var (w2, x) := Build(env, w1, o.parts[n - 1]);
      Newed(env, w1, w2, x, fields[n - 1].kind, o.parts[n - 1]);
      PartsKept(w, w1, Client.Next(env, w2, Client.New(fields[n - 1].kind, x)).0, vars, o.parts[..n - 1], fields);
    }
  }

  lemma PartsKept(w: Client.World, w1: Client.World, w2: Client.World, vars: seq<nat>, os: seq<Hidden>,
                  fields: seq<Values.Field>)
    requires InParts(w, w1, vars, os, fields) && Grown(w1, w2)
    ensures InParts(w, w2, vars, os, fields)
  {
    hide IsTree;
  }

  /** `DynObject::new`, in any storage that accepts the value, keeps it in a new variable and leaves the
      others alone. */
  lemma Wrapped(env: Values.Env, kind: Layout.Kind, w: Client.World, o: Hidden)
    requires Storable(env, kind, o)
    ensures var (w', x) := WrapValue(env, kind, w, o);
      Grown(w, w') && |w.slots| <= x && InSlot(w', x, o)
  {
    hide Client.Next, IsTree, Build, WellTyped;
    Built(env, w, o);
    var (w', x) := Build(env, w, o);
    Newed(env, w, w', x, kind, o);
  }

  /** A call through the vtable of the variable is a call on the value it holds. */
  lemma Driven(env: Values.Env, w: Client.World, x: nat, o: Hidden, entry: nat, args: seq<Datum>, s: Datum)
    requires InSlot(w, x, o) && HasEntry(env, o, entry)
    ensures DriveVar(env, w, x, entry, args, s).Some?
    ensures var (w', r, s') := DriveVar(env, w, x, entry, args, s).value;
      var (o', r', s'') := DriveValue(env, o, entry, args, s);
      r == r' && s' == s'' && InSlot(w', x, o') && w'.log == w.log
      && |w'.slots| == |w.slots| && forall y :: 0 <= y < |w.slots| && y != x ==> w'.slots[y] == w.slots[y]
  {
    var op := Client.Use(x, [], Client.Action.Call(entry, args + [s]));
    assert Client.Compiles(env, Client.ShapesOf(w.slots), op);
  }

  /** Driving an object drives the value it stands for. */
  lemma DriveStands(env: Values.Env, rep: Rep, w: Client.World, h: Held, d: Object,
                    entry: nat, args: seq<Datum>, s: Datum)
    requires Compiled(env, rep) && Stands(rep, w, h, d) && h.Held? && HasEntry(env, h.o, entry)
    requires h.future ==> entry == POLL && args == []
    ensures OrigDrive(env, h, entry, args, s).Some? && DriveObject(env, w, d, entry, args, s).Some?
    ensures var (h', s', r) := OrigDrive(env, h, entry, args, s).value;
      var (w', d', s'', r') := DriveObject(env, w, d, entry, args, s).value;
      s'' == s' && r' == r && Stands(rep, w', h', d') && (VarOf(d') == VarOf(d) || VarOf(d').None?) && w'.log == w.log
      && |w'.slots| == |w.slots| && forall y :: 0 <= y < |w.slots| && Some(y) != VarOf(d) ==> w'.slots[y] == w.slots[y]
  {
    hide DriveVar, DriveValue, Compiled, IsTree;
    match d
    case InVar(x) => Driven(env, w, x, h.o, entry, args, s);
    case Maybe(Async(x)) => Driven(env, w, x, h.o, entry, args, s);
    case Maybe(Sync(v)) =>
      var b, args' :| rep(SyncShortcut.Todo(b, args'), h.o) && WaitsBody(b, args', v);
      FirstPollOf(env, rep, b, args', h.o, s);
      assert SyncShortcut.RunSync(b, s, args') == (s, v);
    case Maybe(SyncPolled) => FinishedPoll(env, rep, h.o, s);
    case NoObject =>
  }

  lemma FinishedPoll(env: Values.Env, rep: Rep, o: Hidden, s: Datum)
    requires Compiled(env, rep) && rep(SyncShortcut.Finished, o)
    ensures HasEntry(env, o, POLL)
    ensures DriveValue(env, o, POLL, [], s).1 == PollDatum(Panicked) && DriveValue(env, o, POLL, [], s).2 == s
    ensures rep(SyncShortcut.Finished, DriveValue(env, o, POLL, [], s).0)
  {
    hide DriveValue, HasEntry, EndsOf;
    assert PollsAs(env, rep, SyncShortcut.Finished, o, s);
  }

  // ----- dropping -----

  lemma EndsAppend(env: Values.Env, log: seq<Client.Dropped>, more: seq<Client.Dropped>)
    ensures EndsOfLog(env, log + more) == EndsOfLog(env, log) + EndsOfLog(env, more)
  {
    Machine.UserLogAppend(env, log, more);
  }

  /** Dropping a tree runs the destructors of the value it is. */
  lemma {:induction false} TreeEnds(env: Values.Env, n: Client.Node, o: Hidden)
    requires IsTree(n, o)
    ensures EndsOfLog(env, Client.DropLog(n)) == EndsOf(env, o)
    decreases n, |n.kids| + 1
  {
    var first := [Client.Dropped(n.tok, n.ty, n.data)];
    KidsEnds(env, n, o, |n.kids|);
    assert n.kids[..|n.kids|] == n.kids && o.parts[..|o.parts|] == o.parts;
    EndsAppend(env, first, Client.DropLogs(n.kids));
    OneEnd(env, Client.Dropped(n.tok, n.ty, n.data));
  }

  lemma OneEnd(env: Values.Env, d: Client.Dropped)
    ensures EndsOfLog(env, [d]) == if d.ty in env.types && env.types[d.ty].userDrop then [End(d.ty, d.data)] else []
  {
    var kept := Machine.UserLog(env, [d]);
    assert [d][..0] == [] && Machine.UserLog(env, [d][..0]) == [];
    assert kept == if d.ty in env.types && env.types[d.ty].userDrop then [d] else [];
  }

  lemma {:induction false} KidsEnds(env: Values.Env, n: Client.Node, o: Hidden, k: nat)
    requires IsTree(n, o) && k <= |n.kids|
    ensures EndsOfLog(env, Client.DropLogs(n.kids[..k])) == AllEnds(env, o.parts[..k])
    decreases n, k
  {
    if k > 0 {
      KidsEnds(env, n, o, k - 1);
      TreeEnds(env, n.kids[k - 1], o.parts[k - 1]);
      assert n.kids[..k][..k - 1] == n.kids[..k - 1] && o.parts[..k][..k - 1] == o.parts[..k - 1];
      EndsAppend(env, Client.DropLogs(n.kids[..k - 1]), Client.DropLog(n.kids[k - 1]));
    }
  }

  /** Dropping an object runs the destructors of the value it stands for, in the same order. */
  lemma DropStands(env: Values.Env, rep: Rep, w: Client.World, h: Held, d: Object)
    requires Compiled(env, rep) && Stands(rep, w, h, d) && h.Held?
    ensures var w' := DropObject(env, w, d);
      EndsOfLog(env, w'.log) == EndsOfLog(env, w.log) + EndsOf(env, h.o) && |w'.slots| == |w.slots|
      && forall y :: 0 <= y < |w.slots| && Some(y) != VarOf(d) ==> w'.slots[y] == w.slots[y]
  {
    hide IsTree, EndsOf, EndsOfLog, Client.DropLog;
    match VarOf(d)
    case Some(x) =>
      assert Client.Compiles(env, Client.ShapesOf(w.slots), Client.Drop(x));
      TreeEnds(env, w.slots[x].v, h.o);
      EndsAppend(env, w.log, Client.DropLog(w.slots[x].v));
    case None => NoEnds(env, rep, h, d);
  }

  lemma NoEnds(env: Values.Env, rep: Rep, h: Held, d: Object)
    requires Compiled(env, rep) && h.Held? && VarOf(d).None? && exists w :: Stands(rep, w, h, d)
    ensures EndsOf(env, h.o) == []
  {
    hide EndsOf, PollsAs;
  }

  // ----- steps -----

  /** A value in another variable is not concerned by a step. */
  lemma OthersStand(rep: Rep, w: Client.World, w': Client.World, h: Held, d: Object)
    requires Stands(rep, w, h, d) && |w.slots| <= |w'.slots|
    requires VarOf(d).Some? && VarOf(d).value < |w.slots| ==> w'.slots[VarOf(d).value] == w.slots[VarOf(d).value]
    ensures Stands(rep, w', h, d)
  {}

  lemma VarsInRange(env: Values.Env, rep: Rep, a: Orig, c: Session)
    requires AllStand(env, rep, a, c)
    ensures forall i :: 0 <= i < |a.hs| && VarOf(c.objects[i]).Some? ==> VarOf(c.objects[i]).value < |c.w.slots|
  {
    forall i | 0 <= i < |a.hs| && VarOf(c.objects[i]).Some? ensures VarOf(c.objects[i]).value < |c.w.slots| {
      assert Stands(rep, c.w, a.hs[i], c.objects[i]);
    }
  }

  /** One more object, in a new variable or in none. */
  lemma OneMore(env: Values.Env, rep: Rep, a: Orig, c: Session, h: Held, d: Object, w: Client.World, s: Datum)
    requires AllStand(env, rep, a, c) && Stands(rep, w, h, d) && NewVar(c.w, w, d)
    ensures AllStand(env, rep, Orig(s, a.hs + [h], a.ends), Session(w, s, c.objects + [d]))
  {
    hide Stands, EndsOfLog;
    VarsInRange(env, rep, a, c);
    forall i | 0 <= i < |a.hs| { OthersStand(rep, c.w, w, a.hs[i], c.objects[i]); }
  }

  /** Nothing but new variables, if any, is written. */
  predicate NewVar(w: Client.World, w': Client.World, d: Object) {
    Grown(w, w') && (VarOf(d).Some? ==> VarOf(d).value >= |w.slots|)
  }

  /** One object is driven or dropped. */
  lemma OneChanged(env: Values.Env, rep: Rep, a: Orig, c: Session, k: nat, h: Held, d: Object, w: Client.World,
                   s: Datum, ends: seq<End>)
    requires AllStand(env, rep, a, c) && k < |a.hs| && Stands(rep, w, h, d) && |c.w.slots| == |w.slots|
    requires VarOf(d) == VarOf(c.objects[k]) || VarOf(d).None?
    requires forall y :: 0 <= y < |c.w.slots| && Some(y) != VarOf(c.objects[k]) ==> w.slots[y] == c.w.slots[y]
    requires EndsOfLog(env, w.log) == ends
    ensures AllStand(env, rep, Orig(s, a.hs[k := h], ends), Session(w, s, c.objects[k := d]))
  {
    hide Stands, EndsOfLog;
    VarsInRange(env, rep, a, c);
    forall i | 0 <= i < |a.hs| && i != k ensures Stands(rep, w, a.hs[i], c.objects[i]) {
      assert Apart(c.objects);
      OthersStand(rep, c.w, w, a.hs[i], c.objects[i]);
    }
  }

  /** What a generated body returns stands for what the original method returns. */
  lemma BodyStands(impl: Impl, kinds: Kinds, rep: Rep, typed: ArgTypes, decls: Decls, fns: seq<Method>, f: ImplItem,
                   w: Client.World, a: Orig, op: Op)
    requires AsyncMethods(impl, rep, typed, decls) && op.Call? && OpOk(impl, kinds, typed, fns, a, op)
    requires HasRpit(fns[op.index].sig) && Generates(fns[op.index], f)
    ensures var name := fns[op.index].sig.name;
      var r := RunBody(impl, kinds(name), f, w, a.s, op.args);
      r.Some? && r.value.2.ReturnsObject? && r.value.1 == impl.hidden(name, op.args, a.s).1
      && Stands(rep, r.value.0, Held(impl.hidden(name, op.args, a.s).0, IsMaybeSync(fns[op.index])), r.value.2.o)
      && NewVar(w, r.value.0, r.value.2.o)
  {
    hide ArgsOk, Forwarded, FnArgs, ParamPats, ClearAll, HasRpit, IsMaybeSync, Compiled, WrapValue, Storable, InSlot,
         Waits;
    var fn := fns[op.index];
    var o := impl.hidden(fn.sig.name, op.args, a.s).0;
    BodyForwards(fn, f, op.args);
    Wrapped(impl.env, kinds(fn.sig.name), w, o);
    if IsMaybeSync(fn) && HasShortcut(impl, fn.sig.name) {
      var b := ShortcutBody(impl, rep, typed, decls, fn.sig.name, op.args, a.s);
      InertWaits(rep, b, op.args, o, a.s);
    }
  }

  lemma InertWaits(rep: Rep, b: AsyncBody, args: seq<Datum>, o: Hidden, s: Datum)
    requires SyncShortcut.AwaitFree(b) && SyncShortcut.Inert(b, args) && rep(SyncShortcut.Todo(b, args), o)
    ensures Waits(rep, o, SyncShortcut.RunSync(b, s, args).1) && SyncShortcut.RunSync(b, s, args).0 == s
  {
    var v := SyncShortcut.RunSync(b, s, args).1;
    forall t ensures SyncShortcut.RunSync(b, t, args) == (t, v) {
      assert SyncShortcut.RunSync(b, t, args).0 == t && SyncShortcut.RunSync(b, t, args).1 == v;
    }
    assert WaitsBody(b, args, v);
  }

  /** What two steps agree on. */
  ghost predicate Agree(env: Values.Env, rep: Rep, a: Option<(Orig, Outcome)>, b: Option<(Session, Outcome)>) {
    a.Some? && b.Some? && b.value.1 == a.value.1 && AllStand(env, rep, a.value.0, b.value.0)
  }

  /** A call of a generated method does what the original does, and its object stands for its value. */
  lemma CallStands(impl: Impl, kinds: Kinds, rep: Rep, typed: ArgTypes, decls: Decls, items: seq<ImplItem>,
                   fns: seq<Method>, f: ImplItem, c: Session, a: Orig, op: Op)
    requires AsyncMethods(impl, rep, typed, decls) && AllStand(impl.env, rep, a, c)
    requires op.Call? && OpOk(impl, kinds, typed, fns, a, op)
    requires FindImpl(items, fns[op.index].sig.name) == Some(f) && Generates(fns[op.index], f)
    ensures Agree(impl.env, rep, OrigStep(impl, fns, a, op), DynStep(impl, kinds, items, fns, c, op))
  {
    hide ArgsOk, FindImpl, Forwarded, FnArgs, ParamPats, ClearAll, HasRpit, IsMaybeSync, Compiled, AsyncMethods,
         Stands, AllStand, WrapValue, Storable;
    var fn := fns[op.index];
    SameState(impl.env, rep, a, c);
    if HasRpit(fn.sig) {
      BodyStands(impl, kinds, rep, typed, decls, fns, f, c.w, a, op);
      var (w, s, ret) := RunBody(impl, kinds(fn.sig.name), f, c.w, c.s, op.args).value;
      OneMore(impl.env, rep, a, c, Held(impl.hidden(fn.sig.name, op.args, a.s).0, IsMaybeSync(fn)), ret.o, w, s);
    } else {
      BodyForwards(fn, f, op.args);
      Unmoved(impl.env, rep, a, c, impl.plain(fn.sig.name, op.args, a.s).1);
    }
  }

  lemma SameState(env: Values.Env, rep: Rep, a: Orig, c: Session)
    requires AllStand(env, rep, a, c)
    ensures c.s == a.s && |c.objects| == |a.hs| && EndsOfLog(env, c.w.log) == a.ends
  {}

  lemma Unmoved(env: Values.Env, rep: Rep, a: Orig, c: Session, s: Datum)
    requires AllStand(env, rep, a, c)
    ensures AllStand(env, rep, a.(s := s), c.(s := s))
  {}

  /** A shortcut called and polled at once does what the future does. */
  lemma ShortcutStands(impl: Impl, kinds: Kinds, rep: Rep, typed: ArgTypes, decls: Decls, items: seq<ImplItem>,
                       fns: seq<Method>, f: ImplItem, c: Session, a: Orig, op: Op)
    requires AsyncMethods(impl, rep, typed, decls) && AllStand(impl.env, rep, a, c)
    requires op.CallAndPoll? && OpOk(impl, kinds, typed, fns, a, op) && HasShortcut(impl, fns[op.index].sig.name)
    requires FindImpl(items, fns[op.index].sig.name) == Some(f) && Generates(fns[op.index], f)
    ensures Agree(impl.env, rep, OrigStep(impl, fns, a, op), DynStep(impl, kinds, items, fns, c, op))
  {
    hide ArgsOk, FindImpl, Forwarded, FnArgs, ParamPats, ClearAll, HasRpit, IsMaybeSync, Compiled, AllStand,
         WrapValue, Storable, DriveValue, HasEntry;
    var fn := fns[op.index];
    SameState(impl.env, rep, a, c);
    BodyForwards(fn, f, op.args);
    var b := ShortcutBody(impl, rep, typed, decls, fn.sig.name, op.args, a.s);
    var o := impl.hidden(fn.sig.name, op.args, a.s).0;
    FirstPollOf(impl.env, rep, b, op.args, o, a.s);
    var (s, v) := SyncShortcut.RunSync(b, a.s, op.args);
    PollRoundTrip(Ready(v));
    OneMore(impl.env, rep, a, c, Held(DriveValue(impl.env, o, POLL, [], a.s).0, true), Maybe(SyncPolled), c.w, s);
  }

  /** Without a shortcut, calling and polling is a call and then a poll. */
  lemma FutureStands(impl: Impl, kinds: Kinds, rep: Rep, typed: ArgTypes, decls: Decls, items: seq<ImplItem>,
                     fns: seq<Method>, f: ImplItem, c: Session, a: Orig, op: Op)
    requires AsyncMethods(impl, rep, typed, decls) && AllStand(impl.env, rep, a, c)
    requires op.CallAndPoll? && OpOk(impl, kinds, typed, fns, a, op) && !HasShortcut(impl, fns[op.index].sig.name)
    requires FindImpl(items, fns[op.index].sig.name) == Some(f) && Generates(fns[op.index], f)
    ensures Agree(impl.env, rep, OrigStep(impl, fns, a, op), DynStep(impl, kinds, items, fns, c, op))
  {
    hide ArgsOk, FindImpl, Forwarded, FnArgs, ParamPats, ClearAll, HasRpit, IsMaybeSync, Compiled, Stands, AllStand,
         WrapValue, Storable, DriveObject, DriveValue, HasEntry;
    var fn := fns[op.index];
    var name := fn.sig.name;
    SameState(impl.env, rep, a, c);
    BodyStands(impl, kinds, rep, typed, decls, fns, f, c.w, a, Call(op.index, op.args));
    var (w, s, ret) := RunBody(impl, kinds(name), f, c.w, c.s, op.args).value;
    var h := Held(impl.hidden(name, op.args, a.s).0, IsMaybeSync(fn));
    DriveStands(impl.env, rep, w, h, ret.o, POLL, [], s);
    var (h', s', _) := OrigDrive(impl.env, h, POLL, [], s).value;
    var (w', d', _, _) := DriveObject(impl.env, w, ret.o, POLL, [], s).value;
    OneMore(impl.env, rep, a, c, h', d', w', s');
  }

  lemma ObjectStands(impl: Impl, kinds: Kinds, rep: Rep, typed: ArgTypes, items: seq<ImplItem>, fns: seq<Method>,
                     c: Session, a: Orig, op: Op)
    requires Compiled(impl.env, rep) && AllStand(impl.env, rep, a, c)
    requires (op.Drive? || op.Drop?) && OpOk(impl, kinds, typed, fns, a, op)
    ensures Agree(impl.env, rep, OrigStep(impl, fns, a, op), DynStep(impl, kinds, items, fns, c, op))
  {
    hide Compiled, DriveObject, DriveValue, HasEntry, FindImpl, RunBody, DropObject, EndsOf, EndsOfLog, IsTree, Waits;
    var h, d := a.hs[op.handle], c.objects[op.handle];
    assert Stands(rep, c.w, h, d);
    if op.Drop? {
      DropStands(impl.env, rep, c.w, h, d);
      OneChanged(impl.env, rep, a, c, op.handle, Gone, NoObject, DropObject(impl.env, c.w, d), a.s,
                 a.ends + EndsOf(impl.env, h.o));
    } else {
      DriveStands(impl.env, rep, c.w, h, d, op.entry, op.args, c.s);
      var (h', s, _) := OrigDrive(impl.env, h, op.entry, op.args, c.s).value;
      var (w, d', _, _) := DriveObject(impl.env, c.w, d, op.entry, op.args, c.s).value;
      OneChanged(impl.env, rep, a, c, op.handle, h', d', w, s, a.ends);
    }
  }

  lemma StepStands(impl: Impl, kinds: Kinds, rep: Rep, typed: ArgTypes, decls: Decls, items: seq<Item>,
                   traitTypes: seq<string>, c: Session, a: Orig, op: Op)
    requires AsyncMethods(impl, rep, typed, decls) && AllStand(impl.env, rep, a, c)
    requires Expand(items, traitTypes, NOTHING).Ok? && DistinctMethods(CallableFns(items))
    requires OpOk(impl, kinds, typed, CallableFns(items), a, op)
    ensures Agree(impl.env, rep, OrigStep(impl, CallableFns(items), a, op),
                  DynStep(impl, kinds, Expand(items, traitTypes, NOTHING).value.implItems, CallableFns(items), c, op))
  {
    hide AllStand, Compiled, OrigStep, DynStep, Expand, CallableFns, Generates, FindImpl, ArgsOk, Storable, HasEntry,
         HasShortcut, InertCall, HasRpit, IsMaybeSync, Agree, SyncShortcut.NoClash, SyncShortcut.ItemsOf;
    var impls, fns := Expand(items, traitTypes, NOTHING).value.implItems, CallableFns(items);
    match op
    case Call(m, _) =>
      Finds(items, traitTypes, NOTHING, m);
      CallStands(impl, kinds, rep, typed, decls, impls, fns, FindImpl(impls, fns[m].sig.name).value, c, a, op);
    case CallAndPoll(m, _) =>
      Finds(items, traitTypes, NOTHING, m);
      var f := FindImpl(impls, fns[m].sig.name).value;
      if HasShortcut(impl, fns[m].sig.name) {
        ShortcutStands(impl, kinds, rep, typed, decls, impls, fns, f, c, a, op);
      } else {
        FutureStands(impl, kinds, rep, typed, decls, impls, fns, f, c, a, op);
      }
    case _ => ObjectStands(impl, kinds, rep, typed, impls, fns, c, a, op);
  }

  /** From related clients every run ends in related clients, with equal outcomes. */
  lemma {:induction false} RunsStand(impl: Impl, kinds: Kinds, rep: Rep, typed: ArgTypes, decls: Decls,
                                     items: seq<Item>, traitTypes: seq<string>, c: Session, a: Orig, ops: seq<Op>)
    requires AsyncMethods(impl, rep, typed, decls) && AllStand(impl.env, rep, a, c)
    requires Expand(items, traitTypes, NOTHING).Ok? && DistinctMethods(CallableFns(items))
    requires RunOk(impl, kinds, typed, CallableFns(items), a, ops)
    ensures var impls := Expand(items, traitTypes, NOTHING).value.implItems;
      var (r, d) := (OrigRun(impl, CallableFns(items), a, ops), DynRun(impl, kinds, impls, CallableFns(items), c, ops));
      r.Some? && d.Some? && d.value.1 == r.value.1 && AllStand(impl.env, rep, r.value.0, d.value.0)
    decreases ops
  {
    hide AsyncMethods, AllStand, OpOk, OrigStep, DynStep, Expand, CallableFns;
    if ops != [] {
      var impls, fns := Expand(items, traitTypes, NOTHING).value.implItems, CallableFns(items);
      StepStands(impl, kinds, rep, typed, decls, items, traitTypes, c, a, ops[0]);
      var (b, _) := OrigStep(impl, fns, a, ops[0]).value;
      var (d, _) := DynStep(impl, kinds, impls, fns, c, ops[0]).value;
      RunsStand(impl, kinds, rep, typed, decls, items, traitTypes, d, b, ops[1..]);
    }
  }

  /** The translation preserves meaning: for every accepted trait, every implementation of it and any
      choice of storages, every run of a client gives the same outcomes, runs the same destructors in
      the same order and leaves the same state through the generated trait as through the original. */
  lemma TranslationPreserves(impl: Impl, kinds: Kinds, rep: Rep, typed: ArgTypes, decls: Decls, items: seq<Item>,
                             traitTypes: seq<string>, w: Client.World, s: Datum, ops: seq<Op>)
    requires AsyncMethods(impl, rep, typed, decls)
    requires Expand(items, traitTypes, NOTHING).Ok? && DistinctMethods(CallableFns(items))
    requires RunOk(impl, kinds, typed, CallableFns(items), Orig(s, [], EndsOfLog(impl.env, w.log)), ops)
    ensures var impls := Expand(items, traitTypes, NOTHING).value.implItems;
      var r := OrigRun(impl, CallableFns(items), Orig(s, [], EndsOfLog(impl.env, w.log)), ops);
      var d := DynRun(impl, kinds, impls, CallableFns(items), Session(w, s, []), ops);
      r.Some? && d.Some? && d.value.1 == r.value.1 && d.value.0.s == r.value.0.s
      && EndsOfLog(impl.env, d.value.0.w.log) == r.value.0.ends
  {
    hide AsyncMethods, Expand, CallableFns, RunOk, OrigRun, DynRun, EndsOfLog;
    RunsStand(impl, kinds, rep, typed, decls, items, traitTypes, Session(w, s, []),
              Orig(s, [], EndsOfLog(impl.env, w.log)), ops);
  }
}
