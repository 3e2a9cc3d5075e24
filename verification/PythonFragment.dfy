/**
 A fragment of Python test bodies: syntax, and an evaluator with function frames, closures that capture
 frames by reference, exceptions, and calls into code outside the body, which may call back.

 What lies outside (operators, the code under test, fixtures) is an arbitrary deterministic function of the
 arguments and of everything that passed before, and all that passes is recorded. Functions of the test body
 handed to the outside are known there by number. Values are never changed in place, collections included.
 Loops and calls consume fuel, so evaluation is total; results are stated for every amount of fuel.
 */
module PythonFragment {
  import opened Wrappers

  // ---- syntax ------------------------------------------------------------------------------

  /** Constants; the other ones (floats, bytes, ...) by their text and truth value. */
  datatype Literal =
    | NoneLit
    | BoolLit(b: bool)
    | IntLit(i: int)
    | StrLit(s: string)
    | OtherLit(text: string, truth: bool)

  /** What a display builds; the elements of a dictionary are its keys and values in turn. */
  datatype Kind = TupleKind | ListKind | SetKind | DictKind

  datatype Expr =
    | Const(literal: Literal)
    | Name(id: string)
    | Display(kind: Kind, elements: seq<Expr>)
    | Binary(op: string, left: Expr, right: Expr)
    | IfExp(test: Expr, body: Expr, orelse: Expr)
    | Lambda(params: seq<string>, value: Expr)
    | Call(func: Expr, args: seq<Expr>)
    | NamedExpr(target: string, value: Expr)
    | ListComp(element: Expr, target: string, iter: Expr)

  datatype Stmt =
    | Assign(target: string, value: Expr)
    | ExprStmt(value: Expr)
    | Assert(test: Expr)
    | If(test: Expr, body: seq<Stmt>, orelse: seq<Stmt>)
    | For(target: string, iter: Expr, body: seq<Stmt>)
    | While(test: Expr, body: seq<Stmt>)
    | FunctionDef(name: string, params: seq<string>, body: seq<Stmt>)
    | Return(value: Expr)
    | Try(body: seq<Stmt>, caught: string, handler: seq<Stmt>)
    | Import(name: string, asname: string)
    | Nonlocal(names: seq<string>)

  /** The names a scope binds, not those of nested functions and comprehensions. */
  function BoundInExpr(e: Expr): set<string> {
    match e
    case Const(_) => {}
    case Name(_) => {}
    case Display(_, es) => BoundInExprs(es)
    case Binary(_, l, r) => BoundInExpr(l) + BoundInExpr(r)
    case IfExp(t, a, b) => BoundInExpr(t) + BoundInExpr(a) + BoundInExpr(b)
    case Lambda(_, _) => {}
    case Call(f, args) => BoundInExpr(f) + BoundInExprs(args)
    case NamedExpr(x, v) => {x} + BoundInExpr(v)
    case ListComp(el, _, it) => BoundInExpr(el) + BoundInExpr(it)
  }

  function BoundInExprs(es: seq<Expr>): set<string> {
    if es == [] then {} else BoundInExpr(es[0]) + BoundInExprs(es[1..])
  }

  function BoundInStmt(s: Stmt): set<string> {
    match s
    case Assign(x, v) => {x} + BoundInExpr(v)
    case ExprStmt(v) => BoundInExpr(v)
    case Assert(t) => BoundInExpr(t)
    case If(t, a, b) => BoundInExpr(t) + BoundIn(a) + BoundIn(b)
    case For(x, it, body) => {x} + BoundInExpr(it) + BoundIn(body)
    case While(t, body) => BoundInExpr(t) + BoundIn(body)
    case FunctionDef(f, _, _) => {f}
    case Return(v) => BoundInExpr(v)
    case Try(body, x, handler) => {x} + BoundIn(body) + BoundIn(handler)
    case Import(_, x) => {x}
    case Nonlocal(_) => {}
  }

  function BoundIn(body: seq<Stmt>): set<string> {
    if body == [] then {} else BoundInStmt(body[0]) + BoundIn(body[1..])
  }

  function NonlocalsOfStmt(s: Stmt): set<string> {
    match s
    case Nonlocal(names) => set n | n in names
    case If(_, a, b) => NonlocalsOf(a) + NonlocalsOf(b)
    case For(_, _, body) => NonlocalsOf(body)
    case While(_, body) => NonlocalsOf(body)
    case Try(body, _, handler) => NonlocalsOf(body) + NonlocalsOf(handler)
    case _ => {}
  }

  function NonlocalsOf(body: seq<Stmt>): set<string> {
    if body == [] then {} else NonlocalsOfStmt(body[0]) + NonlocalsOf(body[1..])
  }

  // ---- values and state --------------------------------------------------------------------

  /** The code of a function value: a lambda's expression or a definition's statements. */
  datatype Code = Single(value: Expr) | Suite(body: seq<Stmt>)

  datatype Value =
    | Data(literal: Literal)
    | Collection(kind: Kind, elements: seq<Value>)
    | Closure(params: seq<string>, code: Code, frame: nat)
    | Outside(name: string)
    | Handed(handle: nat)

  /** Holds no function of the test body but by number, so it means the same inside and outside. */
  predicate IsData(v: Value) {
    match v
    case Data(_) => true
    case Collection(_, vs) => forall x :: x in vs ==> IsData(x)
    case Closure(_, _, _) => false
    case Outside(_) => true
    case Handed(_) => true
  }

  type Datum = v: Value | IsData(v) witness Data(NoneLit)

  datatype Reply = Reply(raises: bool, value: Datum)

  /** What code outside does next: it answers, or calls a function handed to it. */
  datatype Request = Answer(reply: Reply) | CallBack(handle: nat, args: seq<Datum>)

  datatype Event =
    | Called(name: string, args: Datum)
    | CalledBack(handle: nat, values: seq<Datum>)
    | CameBack(raises: bool, value: Datum)
    | Answered(reply: Reply)

  /** Everything the body relies on but does not define. */
  datatype World = World(
    binary: (string, Value, Value) -> Reply,
    outside: (string, Datum, seq<Event>) -> Request,
    items: Value -> Option<seq<Datum>>)

  /** A function activation: the names local to it, the bound ones among them, and where it was defined. */
  datatype Frame = Frame(locals: set<string>, vars: map<string, Value>, parent: nat)

  /** All activations so far, the test's own first, the functions handed out, and what passed with the outside. */
  datatype State = State(frames: seq<Frame>, handed: seq<Value>, trace: seq<Event>)

  datatype Outcome = Val(value: Value, state: State) | Exc(error: Value, state: State) | NoFuel

  datatype Flow =
    | Normal(state: State)
    | Returned(value: Value, state: State)
    | Raised(error: Value, state: State)
    | Exhausted

  const UNBOUND: Value := Outside("UnboundLocalError")
  const TYPE_ERROR: Value := Outside("TypeError")
  const ASSERTION_ERROR: Value := Outside("AssertionError")

  predicate Truthy(v: Value) {
    match v
    case Data(NoneLit) => false
    case Data(BoolLit(b)) => b
    case Data(IntLit(i)) => i != 0
    case Data(StrLit(s)) => s != []
    case Data(OtherLit(_, truth)) => truth
    case Collection(_, vs) => vs != []
    case _ => true
  }

  /** Lists, sets and dictionaries, and tuples that hold one, have no hash. */
  predicate Hashable(v: Value) {
    match v
    case Collection(TupleKind, vs) => AllHashable(vs)
    case Collection(_, _) => false
    case _ => true
  }

  predicate AllHashable(vs: seq<Value>) { vs == [] || (Hashable(vs[0]) && AllHashable(vs[1..])) }

  predicate KeysHashable(vs: seq<Value>) {
    vs == [] || (Hashable(vs[0]) && (|vs| == 1 || KeysHashable(vs[2..])))
  }

  /** Can a collection of this kind be built of the elements? */
  predicate Buildable(kind: Kind, vs: seq<Value>) {
    match kind
    case SetKind => AllHashable(vs)
    case DictKind => KeysHashable(vs)
    case _ => true
  }

  /** What iterating over a value yields; in which order sets do, and what else can be iterated, is outside. */
  function Iterate(w: World, v: Value): Option<seq<Value>> {
    if v.Collection? && (v.kind.TupleKind? || v.kind.ListKind?) then Some(v.elements)
    else if IsData(v) then w.items(v)
    else None
  }

  /** The activation a name belongs to: the nearest one that has it as a local, else the outermost. */
  function Owner(frames: seq<Frame>, name: string, cur: nat): (o: nat)
    requires cur < |frames|
    ensures o <= cur
    decreases cur
  {
    if name in frames[cur].locals || frames[cur].parent >= cur then cur
    else Owner(frames, name, frames[cur].parent)
  }

  /** A name that is local nowhere along the chain is a global of the module or a builtin. */
  function Lookup(st: State, name: string, cur: nat): Outcome
    requires cur < |st.frames|
  {
    var frame := st.frames[Owner(st.frames, name, cur)];
    if name !in frame.locals then Val(Outside(name), st)
    else if name in frame.vars then Val(frame.vars[name], st)
    else Exc(UNBOUND, st)
  }

  function Bind(st: State, name: string, v: Value, cur: nat): State
    requires cur < |st.frames|
  {
    var o := Owner(st.frames, name, cur);
    st.(frames := st.frames[o := st.frames[o].(vars := st.frames[o].vars[name := v])])
  }

  function Unbind(st: State, name: string, cur: nat): State
    requires cur < |st.frames|
  {
    var o := Owner(st.frames, name, cur);
    st.(frames := st.frames[o := st.frames[o].(vars := st.frames[o].vars - {name})])
  }

  function Arguments(params: seq<string>, args: seq<Value>): map<string, Value>
    requires |params| == |args|
  {
    if params == [] then map[]
    else Arguments(params[..|params| - 1], args[..|args| - 1])[params[|params| - 1] := args[|args| - 1]]
  }

  function LocalsOf(params: seq<string>, code: Code): set<string> {
    (set p | p in params) + match code
      case Single(e) => BoundInExpr(e)
      case Suite(body) => BoundIn(body) - NonlocalsOf(body)
  }

  function Enter(st: State, f: Frame): State { st.(frames := st.frames + [f]) }

  /** The scope of a comprehension. */
  function Scope(target: string, cur: nat): Frame { Frame({target}, map[], cur) }

  function Activation(params: seq<string>, code: Code, args: seq<Value>, parent: nat): Frame
    requires |params| == |args|
  {
    Frame(LocalsOf(params, code), Arguments(params, args), parent)
  }

  /** A call ends as the body it ran ends. */
  function Ending(f: Flow): Outcome {
    match f
    case Normal(s) => Val(Data(NoneLit), s)
    case Returned(v, s) => Val(v, s)
    case Raised(v, s) => Exc(v, s)
    case Exhausted => NoFuel
  }

  /** The functions of the test body a value holds, in order. */
  function Functions(v: Value): seq<Value> {
    match v
    case Collection(_, vs) => AllFunctions(vs)
    case Closure(_, _, _) => [v]
    case _ => []
  }

  function AllFunctions(vs: seq<Value>): seq<Value> {
    if vs == [] then [] else Functions(vs[0]) + AllFunctions(vs[1..])
  }

  /** The value as the outside sees it, its functions numbered from `n`. */
  function Shown(v: Value, n: nat): (r: Value)
    ensures IsData(r)
  {
    match v
    case Collection(kind, vs) => Collection(kind, AllShown(vs, n))
    case Closure(_, _, _) => Handed(n)
    case _ => v
  }

  function AllShown(vs: seq<Value>, n: nat): (r: seq<Value>)
    ensures forall x :: x in r ==> IsData(x)
  {
    if vs == [] then [] else [Shown(vs[0], n)] + AllShown(vs[1..], n + |Functions(vs[0])|)
  }

  /** The functions the value holds become known outside. */
  function HandOver(st: State, v: Value): State { st.(handed := st.handed + Functions(v)) }

  function Note(st: State, e: Event): State { st.(trace := st.trace + [e]) }

  /** The test calls code outside. */
  function CallOut(st: State, name: string, args: Value): State {
    Note(HandOver(st, args), Called(name, Shown(args, |st.handed|)))
  }

  /** A function called back has ended; what it returns or raises passes to the outside. */
  function ComeBack(o: Outcome): State
    requires !o.NoFuel?
  {
    var v := if o.Val? then o.value else o.error;
    Note(HandOver(o.state, v), CameBack(o.Exc?, Shown(v, |o.state.handed|)))
  }

  /** The outside answers. */
  function Concluded(st: State, reply: Reply): Outcome {
    var s := Note(st, Answered(reply));
    if reply.raises then Exc(reply.value, s) else Val(reply.value, s)
  }

  /** What is called: of a number, the function handed out under it. */
  function Resolve(st: State, f: Value): Value {
    if f.Handed? && f.handle < |st.handed| then st.handed[f.handle] else f
  }

  /** One more element in front of an evaluated collection. */
  function Prepended(kind: Kind, v: Value, o: Outcome): Outcome
    requires o.Val? ==> o.value.Collection?
  {
    if o.Val? then Val(Collection(kind, [v] + o.value.elements), o.state) else o
  }

  /** The end of an `except` clause: the caught exception's name is removed. */
  function CloseHandler(f: Flow, x: string, cur: nat): Flow
    requires !f.Exhausted? ==> cur < |f.state.frames|
  {
    match f
    case Normal(s) => Normal(Unbind(s, x, cur))
    case Returned(v, s) => Returned(v, Unbind(s, x, cur))
    case Raised(v, s) => Raised(v, Unbind(s, x, cur))
    case Exhausted => Exhausted
  }

  // ---- evaluation --------------------------------------------------------------------------

  function Eval(w: World, fuel: nat, e: Expr, st: State, cur: nat): (o: Outcome)
    requires cur < |st.frames|
    ensures o.Val? || o.Exc? ==> |st.frames| <= |o.state.frames|
    decreases fuel, e, 1
  {
    match e
    case Const(lit) => Val(Data(lit), st)
    case Name(id) => Lookup(st, id, cur)
    case Display(kind, es) =>
      (match EvalAll(w, fuel, es, st, cur)
       case Val(vs, s) =>
         if Buildable(kind, vs.elements) then Val(Collection(kind, vs.elements), s) else Exc(TYPE_ERROR, s)
       case other => other)
    case Binary(op, l, r) =>
      (match Eval(w, fuel, l, st, cur)
       case Val(a, s1) =>
         (match Eval(w, fuel, r, s1, cur)
          case Val(b, s2) => Operate(w, op, a, b, s2)
          case other => other)
       case other => other)
    case IfExp(t, a, b) =>
      (match Eval(w, fuel, t, st, cur)
       case Val(v, s) => if Truthy(v) then Eval(w, fuel, a, s, cur) else Eval(w, fuel, b, s, cur)
       case other => other)
    case Lambda(params, value) => Val(Closure(params, Single(value), cur), st)
    case Call(f, args) =>
      (match Eval(w, fuel, f, st, cur)
       case Val(fv, s) => CallWith(w, fuel, fv, args, s, cur)
       case other => other)
    case NamedExpr(x, value) =>
      (match Eval(w, fuel, value, st, cur)
       case Val(v, s) => Val(v, Bind(s, x, v, cur))
       case other => other)
    case ListComp(el, x, it) =>
      (match Eval(w, fuel, it, st, cur)
       case Val(vs, s) => Comp(w, fuel, el, x, vs, s, cur)
       case other => other)
  }

  /** A call once the function is evaluated. */
  function CallWith(w: World, fuel: nat, fv: Value, args: seq<Expr>, st: State, cur: nat): (o: Outcome)
    requires cur < |st.frames|
    ensures o.Val? || o.Exc? ==> |st.frames| <= |o.state.frames|
    decreases fuel, args, 1
  {
    match EvalAll(w, fuel, args, st, cur)
    case Val(vs, s) => if fuel == 0 then NoFuel else Apply(w, fuel - 1, fv, vs, s)
    case other => other
  }

  /** A comprehension once its iterable is evaluated. */
  function Comp(w: World, fuel: nat, el: Expr, x: string, vs: Value, st: State, cur: nat): (o: Outcome)
    requires cur < |st.frames|
    ensures o.Val? || o.Exc? ==> |st.frames| <= |o.state.frames|
    decreases fuel, el, 3
  {
    match Iterate(w, vs)
    case Some(items) => Each(w, fuel, el, x, items, Enter(st, Scope(x, cur)), |st.frames|)
    case None => Exc(TYPE_ERROR, st)
  }

  /** Expressions left to right, as a tuple. */
  function EvalAll(w: World, fuel: nat, es: seq<Expr>, st: State, cur: nat): (o: Outcome)
    requires cur < |st.frames|
    ensures o.Val? || o.Exc? ==> |st.frames| <= |o.state.frames|
    ensures o.Val? ==> o.value.Collection? && o.value.kind == TupleKind
    decreases fuel, es, 0
  {
    if es == [] then Val(Collection(TupleKind, []), st)
    else match Eval(w, fuel, es[0], st, cur)
      case Val(v, s1) =>
        Prepended(TupleKind, v, EvalAll(w, fuel, es[1..], s1, cur))
      case other => other
  }

  /** The element of a comprehension for each item in turn. */
  function Each(w: World, fuel: nat, el: Expr, x: string, items: seq<Value>, st: State, cur: nat): (o: Outcome)
    requires cur < |st.frames|
    ensures o.Val? || o.Exc? ==> |st.frames| <= |o.state.frames|
    ensures o.Val? ==> o.value.Collection?
    decreases fuel, el, 2, |items|
  {
    if items == [] then Val(Collection(ListKind, []), st)
    else match Eval(w, fuel, el, Bind(st, x, items[0], cur), cur)
      case Val(v, s1) =>
        Prepended(ListKind, v, Each(w, fuel, el, x, items[1..], s1, cur))
      case other => other
  }

  function Operate(w: World, op: string, a: Value, b: Value, st: State): (o: Outcome)
    ensures !o.NoFuel? && o.state == st
  {
    if !IsData(a) || !IsData(b) then Exc(TYPE_ERROR, st)
    else
      var reply := w.binary(op, a, b);
      if reply.raises then Exc(reply.value, st) else Val(reply.value, st)
  }

  function Apply(w: World, fuel: nat, f: Value, args: Value, st: State): (o: Outcome)
    ensures o.Val? || o.Exc? ==> |st.frames| <= |o.state.frames|
    decreases fuel
  {
    if !args.Collection? then Exc(TYPE_ERROR, st)
    else match Resolve(st, f)
    case Outside(name) => Converse(w, fuel, name, Shown(args, |st.handed|), CallOut(st, name, args))
    case Closure(params, code, parent) =>
      if |params| != |args.elements| then Exc(TYPE_ERROR, st)
      else
        Perform(w, fuel, code, Enter(st, Activation(params, code, args.elements, parent)), |st.frames|)
    case _ => Exc(TYPE_ERROR, st)
  }

  /** The code of a function in its activation. */
  function Perform(w: World, fuel: nat, code: Code, st: State, cur: nat): (o: Outcome)
    requires cur < |st.frames|
    ensures o.Val? || o.Exc? ==> |st.frames| <= |o.state.frames|
    decreases fuel, code
  {
    match code
    case Single(e) => Eval(w, fuel, e, st, cur)
    case Suite(body) => Ending(Run(w, fuel, body, st, cur))
  }

  /** Code outside, once called: it may call back any number of times before it answers. */
  function Converse(w: World, fuel: nat, name: string, args: Datum, st: State): (o: Outcome)
    ensures o.Val? || o.Exc? ==> |st.frames| <= |o.state.frames|
    decreases fuel, 1
  {
    match w.outside(name, args, st.trace)
    case Answer(reply) => Concluded(st, reply)
    case CallBack(handle, vs) =>
      if fuel == 0 then NoFuel
      else
        var o := CalledBackWith(w, fuel, handle, vs, st);
        if o.NoFuel? then NoFuel else Converse(w, fuel - 1, name, args, ComeBack(o))
  }

  /** A function handed out, as the outside calls it. */
  function CalledBackWith(w: World, fuel: nat, handle: nat, vs: seq<Datum>, st: State): (o: Outcome)
    requires fuel > 0
    ensures o.Val? || o.Exc? ==> |st.frames| <= |o.state.frames|
    decreases fuel, 0
  {
    Apply(w, fuel - 1, Handed(handle), Collection(TupleKind, vs), Note(st, CalledBack(handle, vs)))
  }

  function Step(w: World, fuel: nat, s: Stmt, st: State, cur: nat): (o: Flow)
    requires cur < |st.frames|
    ensures !o.Exhausted? ==> |st.frames| <= |o.state.frames|
    decreases fuel, s, 1
  {
    match s
    case Assign(x, value) =>
      (match Eval(w, fuel, value, st, cur)
       case Val(v, s1) => Normal(Bind(s1, x, v, cur))
       case Exc(v, s1) => Raised(v, s1)
       case NoFuel => Exhausted)
    case ExprStmt(value) =>
      (match Eval(w, fuel, value, st, cur)
       case Val(v, s1) => Normal(s1)
       case Exc(v, s1) => Raised(v, s1)
       case NoFuel => Exhausted)
    case Assert(test) =>
      (match Eval(w, fuel, test, st, cur)
       case Val(v, s1) => if Truthy(v) then Normal(s1) else Raised(ASSERTION_ERROR, s1)
       case Exc(v, s1) => Raised(v, s1)
       case NoFuel => Exhausted)
    case If(test, a, b) =>
      (match Eval(w, fuel, test, st, cur)
       case Val(v, s1) => if Truthy(v) then Run(w, fuel, a, s1, cur) else Run(w, fuel, b, s1, cur)
       case Exc(v, s1) => Raised(v, s1)
       case NoFuel => Exhausted)
    case For(x, iter, body) =>
      (match Eval(w, fuel, iter, st, cur)
       case Val(v, s1) =>
         (match Iterate(w, v)
          case Some(items) => Loop(w, fuel, x, items, body, s1, cur)
          case None => Raised(TYPE_ERROR, s1))
       case Exc(v, s1) => Raised(v, s1)
       case NoFuel => Exhausted)
    case While(test, body) =>
      (match Eval(w, fuel, test, st, cur)
       case Val(v, s1) =>
         if !Truthy(v) then Normal(s1)
         else (match Run(w, fuel, body, s1, cur)
           case Normal(s2) => if fuel == 0 then Exhausted else Step(w, fuel - 1, s, s2, cur)
           case other => other)
       case Exc(v, s1) => Raised(v, s1)
       case NoFuel => Exhausted)
    case FunctionDef(f, params, body) => Normal(Bind(st, f, Closure(params, Suite(body), cur), cur))
    case Return(value) =>
      (match Eval(w, fuel, value, st, cur)
       case Val(v, s1) => Returned(v, s1)
       case Exc(v, s1) => Raised(v, s1)
       case NoFuel => Exhausted)
    case Try(body, x, handler) =>
      (match Run(w, fuel, body, st, cur)
       case Raised(v, s1) =>
         CloseHandler(Run(w, fuel, handler, Bind(s1, x, v, cur), cur), x, cur)
       case other => other)
    case Import(name, x) => Normal(Bind(st, x, Outside(name), cur))
    case Nonlocal(_) => Normal(st)
  }

  function Run(w: World, fuel: nat, body: seq<Stmt>, st: State, cur: nat): (o: Flow)
    requires cur < |st.frames|
    ensures !o.Exhausted? ==> |st.frames| <= |o.state.frames|
    decreases fuel, body, 0
  {
    if body == [] then Normal(st)
    else match Step(w, fuel, body[0], st, cur)
      case Normal(s1) => Run(w, fuel, body[1..], s1, cur)
      case other => other
  }

  function Loop(w: World, fuel: nat, x: string, items: seq<Value>, body: seq<Stmt>, st: State, cur: nat): (o: Flow)
    requires cur < |st.frames|
    ensures !o.Exhausted? ==> |st.frames| <= |o.state.frames|
    decreases fuel, body, 2, |items|
  {
    if items == [] then Normal(st)
    else match Run(w, fuel, body, Bind(st, x, items[0], cur), cur)
      case Normal(s1) => Loop(w, fuel, x, items[1..], body, s1, cur)
      case other => other
  }

  /** A test about to run with the given values for its parameters. */
  function Start(params: map<string, Value>, body: seq<Stmt>): State {
    State([Frame(params.Keys + (BoundIn(body) - NonlocalsOf(body)), params, 0)], [], [])
  }

  function RunTest(w: World, fuel: nat, params: map<string, Value>, body: seq<Stmt>): Flow {
    Run(w, fuel, body, Start(params, body), 0)
  }
}
