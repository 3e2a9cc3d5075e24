/**
 Duplicate-test detection by literal substitution: the parameters of a parametrised test are replaced by
 the literals of each row. For a body that rebinds no parameter, the substituted body evaluates exactly
 like the original with its parameters bound to that row.
 */
module ParamSubstitution {
  import opened Wrappers
  import opened PythonFragment

  type Row = map<string, Expr>

  // ---- literals ----------------------------------------------------------------------------

  /** Statically evaluable. */
  predicate IsLiteral(e: Expr) {
    match e
    case Const(_) => true
    case Display(kind, es) => (forall x :: x in es ==> IsLiteral(x)) && Buildable(kind, LiteralValues(es))
    case _ => false
  }

  function LiteralValue(e: Expr): Value {
    match e
    case Const(lit) => Data(lit)
    case Display(kind, es) => Collection(kind, LiteralValues(es))
    case _ => Data(NoneLit)
  }

  function LiteralValues(es: seq<Expr>): (vs: seq<Value>)
    ensures |vs| == |es|
  {
    if es == [] then [] else [LiteralValue(es[0])] + LiteralValues(es[1..])
  }

  predicate GoodRow(row: Row) { forall p :: p in row ==> IsLiteral(row[p]) }

  /** The parameters bound to the values of the row. */
  function Bindings(row: Row): map<string, Value>
    requires GoodRow(row)
  {
    map p | p in row :: LiteralValue(row[p])
  }

  // ---- the substituter ---------------------------------------------------------------------

  /** `ParamSubstituter`: replace the parameters where they are read, everywhere in the tree. */
  function SubstExpr(row: Row, e: Expr): Expr {
    match e
    case Const(_) => e
    case Name(id) => if id in row then row[id] else e
    case Display(kind, es) => Display(kind, SubstExprs(row, es))
    case Binary(op, l, r) => Binary(op, SubstExpr(row, l), SubstExpr(row, r))
    case IfExp(t, a, b) => IfExp(SubstExpr(row, t), SubstExpr(row, a), SubstExpr(row, b))
    case Lambda(params, v) => Lambda(params, SubstExpr(row, v))
    case Call(f, args) => Call(SubstExpr(row, f), SubstExprs(row, args))
    case NamedExpr(x, v) => NamedExpr(x, SubstExpr(row, v))
    case ListComp(el, x, it) => ListComp(SubstExpr(row, el), x, SubstExpr(row, it))
  }

  function SubstExprs(row: Row, es: seq<Expr>): seq<Expr> {
    if es == [] then [] else [SubstExpr(row, es[0])] + SubstExprs(row, es[1..])
  }

  function SubstStmt(row: Row, s: Stmt): Stmt {
    match s
    case Assign(x, v) => Assign(x, SubstExpr(row, v))
    case ExprStmt(v) => ExprStmt(SubstExpr(row, v))
    case Assert(t) => Assert(SubstExpr(row, t))
    case If(t, a, b) => If(SubstExpr(row, t), SubstBody(row, a), SubstBody(row, b))
    case For(x, it, body) => For(x, SubstExpr(row, it), SubstBody(row, body))
    case While(t, body) => While(SubstExpr(row, t), SubstBody(row, body))
    case FunctionDef(f, params, body) => FunctionDef(f, params, SubstBody(row, body))
    case Return(v) => Return(SubstExpr(row, v))
    case Try(body, x, handler) => Try(SubstBody(row, body), x, SubstBody(row, handler))
    case Import(_, _) => s
    case Nonlocal(_) => s
  }

  function SubstBody(row: Row, body: seq<Stmt>): seq<Stmt> {
    if body == [] then [] else [SubstStmt(row, body[0])] + SubstBody(row, body[1..])
  }

  // ---- rebinding ---------------------------------------------------------------------------

  predicate AnyOf(params: seq<string>, names: set<string>) { exists p :: p in params && p in names }

  /** Some node of the expression binds one of the names. */
  predicate RebindsExpr(e: Expr, names: set<string>) {
    match e
    case Const(_) => false
    case Name(_) => false
    case Display(_, es) => RebindsExprs(es, names)
    case Binary(_, l, r) => RebindsExpr(l, names) || RebindsExpr(r, names)
    case IfExp(t, a, b) => RebindsExpr(t, names) || RebindsExpr(a, names) || RebindsExpr(b, names)
    case Lambda(params, v) => AnyOf(params, names) || RebindsExpr(v, names)
    case Call(f, args) => RebindsExpr(f, names) || RebindsExprs(args, names)
    case NamedExpr(x, v) => x in names || RebindsExpr(v, names)
    case ListComp(el, x, it) => x in names || RebindsExpr(el, names) || RebindsExpr(it, names)
  }

  predicate RebindsExprs(es: seq<Expr>, names: set<string>) {
    es != [] && (RebindsExpr(es[0], names) || RebindsExprs(es[1..], names))
  }

  predicate RebindsStmt(s: Stmt, names: set<string>) {
    match s
    case Assign(x, v) => x in names || RebindsExpr(v, names)
    case ExprStmt(v) => RebindsExpr(v, names)
    case Assert(t) => RebindsExpr(t, names)
    case If(t, a, b) => RebindsExpr(t, names) || Rebinds(a, names) || Rebinds(b, names)
    case For(x, it, body) => x in names || RebindsExpr(it, names) || Rebinds(body, names)
    case While(t, body) => RebindsExpr(t, names) || Rebinds(body, names)
    case FunctionDef(f, params, body) => f in names || AnyOf(params, names) || Rebinds(body, names)
    case Return(v) => RebindsExpr(v, names)
    case Try(body, x, handler) => x in names || Rebinds(body, names) || Rebinds(handler, names)
    case Import(_, x) => x in names
    case Nonlocal(ns) => AnyOf(ns, names)
  }

  predicate Rebinds(body: seq<Stmt>, names: set<string>) {
    body != [] && (RebindsStmt(body[0], names) || Rebinds(body[1..], names))
  }

  // ---- rebinding, node by node -------------------------------------------------------------

  /** A node of the tree: an expression, a statement, or a parameter of a function. */
  datatype Node = ExprNode(e: Expr) | StmtNode(s: Stmt) | ParamNode(name: string)

  /** `ast.walk` */
  function WalkExpr(e: Expr): set<Node> {
    {ExprNode(e)} + match e
      case Const(_) => {}
      case Name(_) => {}
      case Display(_, es) => WalkExprs(es)
      case Binary(_, l, r) => WalkExpr(l) + WalkExpr(r)
      case IfExp(t, a, b) => WalkExpr(t) + WalkExpr(a) + WalkExpr(b)
      case Lambda(params, v) => WalkParams(params) + WalkExpr(v)
      case Call(f, args) => WalkExpr(f) + WalkExprs(args)
      case NamedExpr(_, v) => WalkExpr(v)
      case ListComp(el, _, it) => WalkExpr(el) + WalkExpr(it)
  }

  function WalkExprs(es: seq<Expr>): set<Node> {
    if es == [] then {} else WalkExpr(es[0]) + WalkExprs(es[1..])
  }

  function WalkParams(params: seq<string>): set<Node> { set p | p in params :: ParamNode(p) }

  function WalkStmt(s: Stmt): set<Node> {
    {StmtNode(s)} + match s
      case Assign(_, v) => WalkExpr(v)
      case ExprStmt(v) => WalkExpr(v)
      case Assert(t) => WalkExpr(t)
      case If(t, a, b) => WalkExpr(t) + Walk(a) + Walk(b)
      case For(_, it, body) => WalkExpr(it) + Walk(body)
      case While(t, body) => WalkExpr(t) + Walk(body)
      case FunctionDef(_, params, body) => WalkParams(params) + Walk(body)
      case Return(v) => WalkExpr(v)
      case Try(body, _, handler) => Walk(body) + Walk(handler)
      case Import(_, _) => {}
      case Nonlocal(_) => {}
  }

  function Walk(body: seq<Stmt>): set<Node> {
    if body == [] then {} else WalkStmt(body[0]) + Walk(body[1..])
  }

  /** `rebinds`: the node itself binds one of the names. */
  predicate NodeRebinds(node: Node, names: set<string>) {
    match node
    case ParamNode(name) => name in names
    case ExprNode(NamedExpr(x, _)) => x in names
    case ExprNode(ListComp(_, x, _)) => x in names
    case StmtNode(Assign(x, _)) => x in names
    case StmtNode(For(x, _, _)) => x in names
    case StmtNode(FunctionDef(f, _, _)) => f in names
    case StmtNode(Try(_, x, _)) => x in names
    case StmtNode(Import(_, x)) => x in names
    case StmtNode(Nonlocal(ns)) => exists n :: n in ns && n in names
    case _ => false
  }

  ghost predicate SomeRebinds(nodes: set<Node>, names: set<string>) {
    exists node :: node in nodes && NodeRebinds(node, names)
  }

  lemma SomeOfBoth(a: set<Node>, b: set<Node>, names: set<string>)
    ensures SomeRebinds(a + b, names) <==> SomeRebinds(a, names) || SomeRebinds(b, names)
  {
    if node :| node in a + b && NodeRebinds(node, names) {
      assert node in a || node in b;
    }
    if node :| node in a && NodeRebinds(node, names) {
      assert node in a + b;
    }
    if node :| node in b && NodeRebinds(node, names) {
      assert node in a + b;
    }
  }

  lemma SomeOfThree(a: set<Node>, b: set<Node>, c: set<Node>, names: set<string>)
    ensures SomeRebinds(a + b + c, names)
       <==> SomeRebinds(a, names) || SomeRebinds(b, names) || SomeRebinds(c, names)
  {
    SomeOfBoth(a + b, c, names);
    SomeOfBoth(a, b, names);
  }

  lemma SomeParamRebinds(params: seq<string>, names: set<string>)
    ensures SomeRebinds(WalkParams(params), names) <==> AnyOf(params, names)
  {
    if p :| p in params && p in names {
      assert ParamNode(p) in WalkParams(params) && NodeRebinds(ParamNode(p), names);
    }
  }

  lemma ItselfRebinds(node: Node, rest: set<Node>, names: set<string>)
    ensures SomeRebinds({node} + rest, names) <==> NodeRebinds(node, names) || SomeRebinds(rest, names)
  {
    SomeOfBoth({node}, rest, names);
    assert NodeRebinds(node, names) ==> node in {node};
  }

  lemma {:induction false} ExprRebindsByNode(e: Expr, names: set<string>)
    ensures RebindsExpr(e, names) <==> SomeRebinds(WalkExpr(e), names)
  {
    match e
    case Const(_) => ItselfRebinds(ExprNode(e), {}, names);
    case Name(_) => ItselfRebinds(ExprNode(e), {}, names);
    case Display(_, es) =>
      ExprsRebindByNode(es, names);
      ItselfRebinds(ExprNode(e), WalkExprs(es), names);
    case Binary(_, l, r) =>
      ExprRebindsByNode(l, names);
      ExprRebindsByNode(r, names);
      SomeOfBoth(WalkExpr(l), WalkExpr(r), names);
      ItselfRebinds(ExprNode(e), WalkExpr(l) + WalkExpr(r), names);
    case IfExp(t, a, b) =>
      ExprRebindsByNode(t, names);
      ExprRebindsByNode(a, names);
      ExprRebindsByNode(b, names);
      SomeOfThree(WalkExpr(t), WalkExpr(a), WalkExpr(b), names);
      ItselfRebinds(ExprNode(e), WalkExpr(t) + WalkExpr(a) + WalkExpr(b), names);
    case Lambda(params, v) =>
      SomeParamRebinds(params, names);
      ExprRebindsByNode(v, names);
      SomeOfBoth(WalkParams(params), WalkExpr(v), names);
      ItselfRebinds(ExprNode(e), WalkParams(params) + WalkExpr(v), names);
    case Call(f, args) =>
      ExprRebindsByNode(f, names);
      ExprsRebindByNode(args, names);
      SomeOfBoth(WalkExpr(f), WalkExprs(args), names);
      ItselfRebinds(ExprNode(e), WalkExpr(f) + WalkExprs(args), names);
    case NamedExpr(_, v) =>
      ExprRebindsByNode(v, names);
      ItselfRebinds(ExprNode(e), WalkExpr(v), names);
    case ListComp(el, _, it) =>
      ExprRebindsByNode(el, names);
      ExprRebindsByNode(it, names);
      SomeOfBoth(WalkExpr(el), WalkExpr(it), names);
      ItselfRebinds(ExprNode(e), WalkExpr(el) + WalkExpr(it), names);
  }

  lemma {:induction false} ExprsRebindByNode(es: seq<Expr>, names: set<string>)
    ensures RebindsExprs(es, names) <==> SomeRebinds(WalkExprs(es), names)
  {
    if es != [] {
      ExprRebindsByNode(es[0], names);
      ExprsRebindByNode(es[1..], names);
      SomeOfBoth(WalkExpr(es[0]), WalkExprs(es[1..]), names);
    }
  }

  lemma {:induction false} StmtRebindsByNode(s: Stmt, names: set<string>)
    ensures RebindsStmt(s, names) <==> SomeRebinds(WalkStmt(s), names)
  {
    match s
    case Assign(_, v) =>
      ExprRebindsByNode(v, names);
      ItselfRebinds(StmtNode(s), WalkExpr(v), names);
    case ExprStmt(v) =>
      ExprRebindsByNode(v, names);
      ItselfRebinds(StmtNode(s), WalkExpr(v), names);
    case Assert(t) =>
      ExprRebindsByNode(t, names);
      ItselfRebinds(StmtNode(s), WalkExpr(t), names);
    case If(t, a, b) =>
      ExprRebindsByNode(t, names);
      BodyRebindsByNode(a, names);
      BodyRebindsByNode(b, names);
      SomeOfThree(WalkExpr(t), Walk(a), Walk(b), names);
      ItselfRebinds(StmtNode(s), WalkExpr(t) + Walk(a) + Walk(b), names);
    case For(_, it, body) =>
      ExprRebindsByNode(it, names);
      BodyRebindsByNode(body, names);
      SomeOfBoth(WalkExpr(it), Walk(body), names);
      ItselfRebinds(StmtNode(s), WalkExpr(it) + Walk(body), names);
    case While(t, body) =>
      ExprRebindsByNode(t, names);
      BodyRebindsByNode(body, names);
      SomeOfBoth(WalkExpr(t), Walk(body), names);
      ItselfRebinds(StmtNode(s), WalkExpr(t) + Walk(body), names);
    case FunctionDef(_, params, body) =>
      SomeParamRebinds(params, names);
      BodyRebindsByNode(body, names);
      SomeOfBoth(WalkParams(params), Walk(body), names);
      ItselfRebinds(StmtNode(s), WalkParams(params) + Walk(body), names);
    case Return(v) =>
      ExprRebindsByNode(v, names);
      ItselfRebinds(StmtNode(s), WalkExpr(v), names);
    case Try(body, _, handler) =>
      BodyRebindsByNode(body, names);
      BodyRebindsByNode(handler, names);
      SomeOfBoth(Walk(body), Walk(handler), names);
      ItselfRebinds(StmtNode(s), Walk(body) + Walk(handler), names);
    case Import(_, _) => ItselfRebinds(StmtNode(s), {}, names);
    case Nonlocal(_) => ItselfRebinds(StmtNode(s), {}, names);
  }

  /** The body rebinds one of the names exactly if one of its nodes does. */
  lemma {:induction false} BodyRebindsByNode(body: seq<Stmt>, names: set<string>)
    ensures Rebinds(body, names) <==> SomeRebinds(Walk(body), names)
  {
    if body != [] {
      StmtRebindsByNode(body[0], names);
      BodyRebindsByNode(body[1..], names);
      SomeOfBoth(WalkStmt(body[0]), Walk(body[1..]), names);
    }
  }

  predicate RebindsCode(code: Code, names: set<string>) {
    match code
    case Single(e) => RebindsExpr(e, names)
    case Suite(body) => Rebinds(body, names)
  }

  function SubstCode(row: Row, code: Code): Code {
    match code
    case Single(e) => Single(SubstExpr(row, e))
    case Suite(body) => Suite(SubstBody(row, body))
  }

  // ---- scopes are not disturbed ------------------------------------------------------------

  lemma LiteralBindsNothing(e: Expr)
    requires IsLiteral(e)
    ensures BoundInExpr(e) == {}
  {
    if e.Display? {
      LiteralsBindNothing(e.elements);
    }
  }

  lemma LiteralsBindNothing(es: seq<Expr>)
    requires forall x :: x in es ==> IsLiteral(x)
    ensures BoundInExprs(es) == {}
  {
    if es != [] {
      LiteralBindsNothing(es[0]);
      LiteralsBindNothing(es[1..]);
    }
  }

  lemma {:induction false} ExprScope(row: Row, e: Expr)
    requires GoodRow(row)
    ensures BoundInExpr(SubstExpr(row, e)) == BoundInExpr(e)
    ensures !RebindsExpr(e, row.Keys) ==> BoundInExpr(e) !! row.Keys
  {
    match e
    case Const(_) =>
    case Name(id) => if id in row { LiteralBindsNothing(row[id]); }
    case Display(_, es) => ExprsScope(row, es);
    case Binary(_, l, r) => ExprScope(row, l); ExprScope(row, r);
    case IfExp(t, a, b) => ExprScope(row, t); ExprScope(row, a); ExprScope(row, b);
    case Lambda(_, _) =>
    case Call(f, args) => ExprScope(row, f); ExprsScope(row, args);
    case NamedExpr(_, v) => ExprScope(row, v);
    case ListComp(el, _, it) => ExprScope(row, el); ExprScope(row, it);
  }

  lemma {:induction false} ExprsScope(row: Row, es: seq<Expr>)
    requires GoodRow(row)
    ensures BoundInExprs(SubstExprs(row, es)) == BoundInExprs(es)
    ensures !RebindsExprs(es, row.Keys) ==> BoundInExprs(es) !! row.Keys
  {
    if es != [] {
      ExprScope(row, es[0]);
      ExprsScope(row, es[1..]);
    }
  }

  lemma {:induction false} StmtScope(row: Row, s: Stmt)
    requires GoodRow(row)
    ensures BoundInStmt(SubstStmt(row, s)) == BoundInStmt(s)
    ensures !RebindsStmt(s, row.Keys) ==> BoundInStmt(s) !! row.Keys
  {
    match s
    case Assign(_, v) => ExprScope(row, v);
    case ExprStmt(v) => ExprScope(row, v);
    case Assert(t) => ExprScope(row, t);
    case If(t, a, b) => ExprScope(row, t); BodyScope(row, a); BodyScope(row, b);
    case For(_, it, body) => ExprScope(row, it); BodyScope(row, body);
    case While(t, body) => ExprScope(row, t); BodyScope(row, body);
    case FunctionDef(_, _, _) =>
    case Return(v) => ExprScope(row, v);
    case Try(body, _, handler) => BodyScope(row, body); BodyScope(row, handler);
    case Import(_, _) =>
    case Nonlocal(_) =>
  }

  lemma {:induction false} BodyScope(row: Row, body: seq<Stmt>)
    requires GoodRow(row)
    ensures BoundIn(SubstBody(row, body)) == BoundIn(body)
    ensures !Rebinds(body, row.Keys) ==> BoundIn(body) !! row.Keys
  {
    if body != [] {
      StmtScope(row, body[0]);
      BodyScope(row, body[1..]);
    }
  }

  lemma {:induction false} StmtNonlocals(row: Row, s: Stmt)
    ensures NonlocalsOfStmt(SubstStmt(row, s)) == NonlocalsOfStmt(s)
  {
    match s
    case If(_, a, b) => BodyNonlocals(row, a); BodyNonlocals(row, b);
    case For(_, _, body) => BodyNonlocals(row, body);
    case While(_, body) => BodyNonlocals(row, body);
    case Try(body, _, handler) => BodyNonlocals(row, body); BodyNonlocals(row, handler);
    case _ =>
  }

  lemma {:induction false} BodyNonlocals(row: Row, body: seq<Stmt>)
    ensures NonlocalsOf(SubstBody(row, body)) == NonlocalsOf(body)
  {
    if body != [] {
      StmtNonlocals(row, body[0]);
      BodyNonlocals(row, body[1..]);
    }
  }

  lemma CodeScope(row: Row, params: seq<string>, code: Code)
    requires GoodRow(row)
    ensures LocalsOf(params, SubstCode(row, code)) == LocalsOf(params, code)
    ensures !RebindsCode(code, row.Keys) && !AnyOf(params, row.Keys) ==> LocalsOf(params, code) !! row.Keys
  {
    match code
    case Single(e) => ExprScope(row, e);
    case Suite(body) => BodyScope(row, body); BodyNonlocals(row, body);
  }

  // ---- the corresponding values and states -------------------------------------------------

  function SubstValue(row: Row, v: Value): Value {
    match v
    case Data(_) => v
    case Collection(kind, vs) => Collection(kind, SubstValues(row, vs))
    case Closure(params, code, frame) => Closure(params, SubstCode(row, code), frame)
    case Outside(_) => v
    case Handed(_) => v
  }

  function SubstValues(row: Row, vs: seq<Value>): (r: seq<Value>)
    ensures |r| == |vs|
  {
    if vs == [] then [] else [SubstValue(row, vs[0])] + SubstValues(row, vs[1..])
  }

  /** Without the parameters, and with the parameters replaced inside function values. */
  function SubstFrame(row: Row, f: Frame): Frame {
    Frame(f.locals - row.Keys, map k | k in f.vars && k !in row :: SubstValue(row, f.vars[k]), f.parent)
  }

  function SubstFrames(row: Row, fs: seq<Frame>): (r: seq<Frame>)
    ensures |r| == |fs| && forall i :: 0 <= i < |fs| ==> r[i] == SubstFrame(row, fs[i])
  {
    if fs == [] then [] else [SubstFrame(row, fs[0])] + SubstFrames(row, fs[1..])
  }

  function SubstState(row: Row, st: State): State {
    State(SubstFrames(row, st.frames), SubstValues(row, st.handed), st.trace)
  }

  function SubstOutcome(row: Row, o: Outcome): Outcome {
    match o
    case Val(v, st) => Val(SubstValue(row, v), SubstState(row, st))
    case Exc(v, st) => Exc(SubstValue(row, v), SubstState(row, st))
    case NoFuel => NoFuel
  }

  function SubstFlow(row: Row, f: Flow): Flow {
    match f
    case Normal(st) => Normal(SubstState(row, st))
    case Returned(v, st) => Returned(SubstValue(row, v), SubstState(row, st))
    case Raised(v, st) => Raised(SubstValue(row, v), SubstState(row, st))
    case Exhausted => Exhausted
  }

  /** Function values in it rebind no parameter and belong to one of the first `n` activations. */
  predicate ValueOk(row: Row, n: nat, v: Value) {
    match v
    case Collection(_, vs) => forall x :: x in vs ==> ValueOk(row, n, x)
    case Closure(params, code, frame) => frame < n && !AnyOf(params, row.Keys) && !RebindsCode(code, row.Keys)
    case _ => true
  }

  predicate AllOk(row: Row, n: nat, vs: seq<Value>) { forall x :: x in vs ==> ValueOk(row, n, x) }

  /** The test's own activation binds every parameter to its value in the row. */
  ghost predicate BindsRow(row: Row, f: Frame)
    requires GoodRow(row)
  {
    forall p :: p in row ==> p in f.locals && p in f.vars && f.vars[p] == LiteralValue(row[p])
  }

  /** Any later activation has no parameter as a local, and was defined in an earlier one. */
  predicate Nested(row: Row, i: nat, f: Frame) { i > 0 ==> f.parent < i && f.locals !! row.Keys }

  predicate VarsOk(row: Row, n: nat, f: Frame) { forall k :: k in f.vars ==> ValueOk(row, n, f.vars[k]) }

  /** The parameters keep the row's values in the test's own activation and are local nowhere else. */
  ghost predicate Inv(row: Row, st: State)
    requires GoodRow(row)
  {
    && st.frames != []
    && BindsRow(row, st.frames[0])
    && (forall i :: 0 <= i < |st.frames| ==> Nested(row, i, st.frames[i]))
    && (forall i :: 0 <= i < |st.frames| ==> VarsOk(row, |st.frames|, st.frames[i]))
    && AllOk(row, |st.frames|, st.handed)
  }

  ghost predicate OutcomeOk(row: Row, o: Outcome)
    requires GoodRow(row)
  {
    match o
    case Val(v, st) => Inv(row, st) && ValueOk(row, |st.frames|, v)
    case Exc(v, st) => Inv(row, st) && ValueOk(row, |st.frames|, v)
    case NoFuel => true
  }

  ghost predicate FlowOk(row: Row, f: Flow)
    requires GoodRow(row)
  {
    match f
    case Normal(st) => Inv(row, st)
    case Returned(v, st) => Inv(row, st) && ValueOk(row, |st.frames|, v)
    case Raised(v, st) => Inv(row, st) && ValueOk(row, |st.frames|, v)
    case Exhausted => true
  }

  // ---- values ------------------------------------------------------------------------------

  lemma {:induction false} DataUnchanged(row: Row, v: Value)
    ensures IsData(SubstValue(row, v)) <==> IsData(v)
    ensures IsData(v) ==> SubstValue(row, v) == v
  {
    if v.Collection? {
      DatasUnchanged(row, v.elements);
    }
  }

  lemma {:induction false} DatasUnchanged(row: Row, vs: seq<Value>)
    ensures (forall x :: x in SubstValues(row, vs) ==> IsData(x)) <==> (forall x :: x in vs ==> IsData(x))
    ensures (forall x :: x in vs ==> IsData(x)) ==> SubstValues(row, vs) == vs
  {
    if vs != [] {
      DataUnchanged(row, vs[0]);
      DatasUnchanged(row, vs[1..]);
      assert vs == [vs[0]] + vs[1..];
    }
  }

  lemma {:induction false} DataOk(row: Row, n: nat, v: Value)
    requires IsData(v)
    ensures ValueOk(row, n, v)
  {
    if v.Collection? {
      forall x | x in v.elements ensures ValueOk(row, n, x) {
        DataOk(row, n, x);
      }
    }
  }

  lemma {:induction false} ValueOkGrows(row: Row, n: nat, m: nat, v: Value)
    requires ValueOk(row, n, v) && n <= m
    ensures ValueOk(row, m, v)
  {
    if v.Collection? {
      forall x | x in v.elements ensures ValueOk(row, m, x) {
        ValueOkGrows(row, n, m, x);
      }
    }
  }

  lemma TruthSame(row: Row, v: Value)
    ensures Truthy(SubstValue(row, v)) == Truthy(v)
  {
    if v.Collection? {
      assert |SubstValues(row, v.elements)| == |v.elements|;
    }
  }

  lemma {:induction false} HashableSame(row: Row, v: Value)
    ensures Hashable(SubstValue(row, v)) == Hashable(v)
  {
    if v.Collection? {
      AllHashableSame(row, v.elements);
    }
  }

  lemma {:induction false} AllHashableSame(row: Row, vs: seq<Value>)
    ensures AllHashable(SubstValues(row, vs)) == AllHashable(vs)
  {
    if vs != [] {
      HashableSame(row, vs[0]);
      AllHashableSame(row, vs[1..]);
    }
  }

  lemma {:induction false} KeysHashableSame(row: Row, vs: seq<Value>)
    ensures KeysHashable(SubstValues(row, vs)) == KeysHashable(vs)
  {
    if vs != [] {
      HashableSame(row, vs[0]);
      if |vs| > 1 {
        KeysHashableSame(row, vs[2..]);
        assert vs[1..][1..] == vs[2..];
        assert SubstValues(row, vs)[2..] == SubstValues(row, vs[2..]);
      }
    }
  }

  lemma BuildableSame(row: Row, kind: Kind, vs: seq<Value>)
    ensures Buildable(kind, SubstValues(row, vs)) == Buildable(kind, vs)
  {
    AllHashableSame(row, vs);
    KeysHashableSame(row, vs);
  }

  lemma {:induction false} LiteralIsData(e: Expr)
    requires IsLiteral(e)
    ensures IsData(LiteralValue(e))
  {
    if e.Display? {
      LiteralsAreData(e.elements);
    }
  }

  lemma {:induction false} LiteralsAreData(es: seq<Expr>)
    requires forall x :: x in es ==> IsLiteral(x)
    ensures forall x :: x in LiteralValues(es) ==> IsData(x)
  {
    if es != [] {
      LiteralIsData(es[0]);
      LiteralsAreData(es[1..]);
    }
  }

  lemma {:induction false} LiteralEvaluates(w: World, fuel: nat, e: Expr, st: State, cur: nat)
    requires IsLiteral(e) && cur < |st.frames|
    ensures Eval(w, fuel, e, st, cur) == Val(LiteralValue(e), st)
  {
    if e.Display? {
      LiteralsEvaluate(w, fuel, e.elements, st, cur);
    }
  }

  lemma {:induction false} LiteralsEvaluate(w: World, fuel: nat, es: seq<Expr>, st: State, cur: nat)
    requires cur < |st.frames| && forall x :: x in es ==> IsLiteral(x)
    ensures EvalAll(w, fuel, es, st, cur) == Val(Collection(TupleKind, LiteralValues(es)), st)
  {
    if es != [] {
      LiteralEvaluates(w, fuel, es[0], st, cur);
      LiteralsEvaluate(w, fuel, es[1..], st, cur);
    }
  }

  /** Nothing in it but constants and displays. */
  ghost predicate Static(nodes: set<Node>) {
    forall node :: node in nodes ==> node.ExprNode? && (node.e.Const? || node.e.Display?)
  }

  lemma StaticBoth(a: set<Node>, b: set<Node>)
    ensures Static(a + b) <==> Static(a) && Static(b)
  {
    assert forall node :: node in a || node in b ==> node in a + b;
  }

  /** Literals are the expressions of constants and displays alone that evaluate. */
  lemma {:induction false} LiteralExactlyWhen(w: World, fuel: nat, e: Expr, st: State, cur: nat)
    requires cur < |st.frames|
    ensures IsLiteral(e) <==> Static(WalkExpr(e)) && Eval(w, fuel, e, st, cur).Val?
  {
    assert ExprNode(e) in WalkExpr(e);
    if e.Display? {
      StaticBoth({ExprNode(e)}, WalkExprs(e.elements));
      LiteralsExactlyWhen(w, fuel, e.elements, st, cur);
      if forall x :: x in e.elements ==> IsLiteral(x) {
        LiteralsEvaluate(w, fuel, e.elements, st, cur);
      }
    }
  }

  lemma {:induction false} LiteralsExactlyWhen(w: World, fuel: nat, es: seq<Expr>, st: State, cur: nat)
    requires cur < |st.frames|
    ensures (forall x :: x in es ==> IsLiteral(x)) <==> Static(WalkExprs(es)) && EvalAll(w, fuel, es, st, cur).Val?
  {
    if es != [] {
      StaticBoth(WalkExpr(es[0]), WalkExprs(es[1..]));
      LiteralExactlyWhen(w, fuel, es[0], st, cur);
      if IsLiteral(es[0]) {
        LiteralEvaluates(w, fuel, es[0], st, cur);
      }
      LiteralsExactlyWhen(w, fuel, es[1..], st, cur);
      assert es == [es[0]] + es[1..];
    }
  }

  // ---- names -------------------------------------------------------------------------------

  lemma {:induction false} OwnerSame(row: Row, frames: seq<Frame>, name: string, cur: nat)
    requires cur < |frames| && name !in row
    ensures Owner(SubstFrames(row, frames), name, cur) == Owner(frames, name, cur)
    decreases cur
  {
    if name !in frames[cur].locals && frames[cur].parent < cur {
      OwnerSame(row, frames, name, frames[cur].parent);
    }
  }

  lemma {:induction false} ParamOwner(row: Row, st: State, name: string, cur: nat)
    requires GoodRow(row) && Inv(row, st) && cur < |st.frames| && name in row
    ensures Owner(st.frames, name, cur) == 0
    decreases cur
  {
    if cur > 0 {
      assert name !in st.frames[cur].locals;
      ParamOwner(row, st, name, st.frames[cur].parent);
    }
  }

  lemma LookupCommutes(w: World, row: Row, fuel: nat, name: string, st: State, cur: nat)
    requires GoodRow(row) && Inv(row, st) && cur < |st.frames|
    ensures Eval(w, fuel, SubstExpr(row, Name(name)), SubstState(row, st), cur)
         == SubstOutcome(row, Lookup(st, name, cur))
    ensures OutcomeOk(row, Lookup(st, name, cur))
  {
    if name in row {
      ParamOwner(row, st, name, cur);
      LiteralEvaluates(w, fuel, row[name], SubstState(row, st), cur);
      LiteralIsData(row[name]);
      DataUnchanged(row, LiteralValue(row[name]));
    } else {
      OwnerSame(row, st.frames, name, cur);
    }
  }

  lemma FramesUpdate(row: Row, frames: seq<Frame>, o: nat, f: Frame)
    requires o < |frames|
    ensures SubstFrames(row, frames[o := f]) == SubstFrames(row, frames)[o := SubstFrame(row, f)]
  {}

  /** Changing the values of variables other than the parameters keeps the invariant. */
  lemma UpdateKeepsInv(row: Row, st: State, o: nat, vars: map<string, Value>)
    requires GoodRow(row) && Inv(row, st) && o < |st.frames|
    requires forall p :: p in row && p in st.frames[o].vars ==> p in vars && vars[p] == st.frames[o].vars[p]
    requires VarsOk(row, |st.frames|, st.frames[o].(vars := vars))
    ensures Inv(row, st.(frames := st.frames[o := st.frames[o].(vars := vars)]))
  {
    var s := st.(frames := st.frames[o := st.frames[o].(vars := vars)]);
    assert Nested(row, o, st.frames[o]);
    assert BindsRow(row, s.frames[0]);
  }

  lemma BindCommutes(row: Row, st: State, name: string, v: Value, cur: nat)
    requires GoodRow(row) && Inv(row, st) && cur < |st.frames| && name !in row && ValueOk(row, |st.frames|, v)
    ensures Bind(SubstState(row, st), name, SubstValue(row, v), cur) == SubstState(row, Bind(st, name, v, cur))
    ensures Inv(row, Bind(st, name, v, cur))
  {
    OwnerSame(row, st.frames, name, cur);
    var o := Owner(st.frames, name, cur);
    var f := st.frames[o];
    var g := f.(vars := f.vars[name := v]);
    assert VarsOk(row, |st.frames|, f);
    FramesUpdate(row, st.frames, o, g);
    BoundVars(row, f, name, v);
    UpdateKeepsInv(row, st, o, g.vars);
  }

  lemma BoundVars(row: Row, f: Frame, name: string, v: Value)
    requires name !in row
    ensures SubstFrame(row, f.(vars := f.vars[name := v])).vars == SubstFrame(row, f).vars[name := SubstValue(row, v)]
  {}

  lemma UnbindCommutes(row: Row, st: State, name: string, cur: nat)
    requires GoodRow(row) && Inv(row, st) && cur < |st.frames| && name !in row
    ensures Unbind(SubstState(row, st), name, cur) == SubstState(row, Unbind(st, name, cur))
    ensures Inv(row, Unbind(st, name, cur))
  {
    OwnerSame(row, st.frames, name, cur);
    var o := Owner(st.frames, name, cur);
    var f := st.frames[o];
    var g := f.(vars := f.vars - {name});
    assert VarsOk(row, |st.frames|, f);
    FramesUpdate(row, st.frames, o, g);
    UnboundVars(row, f, name);
    UpdateKeepsInv(row, st, o, g.vars);
  }

  lemma UnboundVars(row: Row, f: Frame, name: string)
    ensures SubstFrame(row, f.(vars := f.vars - {name})).vars == SubstFrame(row, f).vars - {name}
  {}

  lemma VarsOkGrows(row: Row, n: nat, m: nat, f: Frame)
    requires VarsOk(row, n, f) && n <= m
    ensures VarsOk(row, m, f)
  {
    forall k | k in f.vars ensures ValueOk(row, m, f.vars[k]) {
      ValueOkGrows(row, n, m, f.vars[k]);
    }
  }

  /** A new activation for code that rebinds no parameter. */
  lemma EnterCommutes(row: Row, st: State, f: Frame)
    requires GoodRow(row) && Inv(row, st) && f.parent < |st.frames| && f.locals !! row.Keys
    requires VarsOk(row, |st.frames|, f)
    ensures Inv(row, Enter(st, f))
    ensures SubstState(row, Enter(st, f)) == Enter(SubstState(row, st), SubstFrame(row, f))
  {
    var s := Enter(st, f);
    AllOkGrows(row, |st.frames|, |s.frames|, st.handed);
    forall i | 0 <= i < |s.frames| ensures VarsOk(row, |s.frames|, s.frames[i]) {
      VarsOkGrows(row, |st.frames|, |s.frames|, s.frames[i]);
    }
    SubstFramesAppend(row, st.frames, f);
  }

  lemma SubstFramesAppend(row: Row, frames: seq<Frame>, f: Frame)
    ensures SubstFrames(row, frames + [f]) == SubstFrames(row, frames) + [SubstFrame(row, f)]
  {}

  lemma {:induction false} ArgumentsCommute(row: Row, params: seq<string>, args: seq<Value>)
    requires |params| == |args|
    ensures var vars := Arguments(params, args);
            Arguments(params, SubstValues(row, args)) == map k | k in vars :: SubstValue(row, vars[k])
  {
    if params != [] {
      ArgumentsCommute(row, params[..|params| - 1], args[..|args| - 1]);
      SubstValuesInit(row, args);
    }
  }

  lemma {:induction false} ArgumentsNamed(params: seq<string>, args: seq<Value>)
    requires |params| == |args|
    ensures forall k :: k in Arguments(params, args) ==> k in params
  {
    if params != [] {
      ArgumentsNamed(params[..|params| - 1], args[..|args| - 1]);
    }
  }

  lemma {:induction false} ArgumentsOk(row: Row, n: nat, params: seq<string>, args: seq<Value>)
    requires |params| == |args| && AllOk(row, n, args)
    ensures forall k :: k in Arguments(params, args) ==> ValueOk(row, n, Arguments(params, args)[k])
  {
    if params != [] {
      ArgumentsOk(row, n, params[..|params| - 1], args[..|args| - 1]);
    }
  }

  lemma {:induction false} SubstValuesInit(row: Row, vs: seq<Value>)
    requires vs != []
    ensures SubstValues(row, vs)[..|vs| - 1] == SubstValues(row, vs[..|vs| - 1])
    ensures SubstValues(row, vs)[|vs| - 1] == SubstValue(row, vs[|vs| - 1])
  {
    if |vs| > 1 {
      SubstValuesInit(row, vs[1..]);
      assert vs[1..][..|vs| - 2] == vs[..|vs| - 1][1..];
      assert SubstValues(row, vs)[..|vs| - 1] == [SubstValue(row, vs[0])] + SubstValues(row, vs[1..])[..|vs| - 2];
    }
  }

  // ---- calls -------------------------------------------------------------------------------

  lemma AllOkGrows(row: Row, n: nat, m: nat, vs: seq<Value>)
    requires AllOk(row, n, vs) && n <= m
    ensures AllOk(row, m, vs)
  {
    forall x | x in vs ensures ValueOk(row, m, x) {
      ValueOkGrows(row, n, m, x);
    }
  }

  lemma ActivationCommutes(row: Row, n: nat, params: seq<string>, code: Code, args: seq<Value>, parent: nat)
    requires GoodRow(row) && |params| == |args| && AllOk(row, n, args)
    requires !AnyOf(params, row.Keys) && !RebindsCode(code, row.Keys)
    ensures Activation(params, SubstCode(row, code), SubstValues(row, args), parent)
         == SubstFrame(row, Activation(params, code, args, parent))
    ensures Activation(params, code, args, parent).locals !! row.Keys
    ensures VarsOk(row, n, Activation(params, code, args, parent))
  {
    CodeScope(row, params, code);
    ArgumentsCommute(row, params, args);
    ArgumentsNamed(params, args);
    ArgumentsOk(row, n, params, args);
    var f := Activation(params, code, args, parent);
    assert f.locals - row.Keys == f.locals;
    assert SubstFrame(row, f).vars == map k | k in f.vars :: SubstValue(row, f.vars[k]);
  }

  lemma PrependCommutes(row: Row, n: nat, m: nat, v: Value, vs: seq<Value>)
    requires ValueOk(row, n, v) && AllOk(row, m, vs) && n <= m
    ensures SubstValues(row, [v] + vs) == [SubstValue(row, v)] + SubstValues(row, vs)
    ensures AllOk(row, m, [v] + vs)
  {
    ValueOkGrows(row, n, m, v);
    assert ([v] + vs)[1..] == vs;
  }

  lemma PrependedCommutes(row: Row, kind: Kind, n: nat, v: Value, o: Outcome)
    requires GoodRow(row) && OutcomeOk(row, o) && ValueOk(row, n, v)
    requires o.Val? ==> o.value.Collection? && n <= |o.state.frames|
    ensures Prepended(kind, SubstValue(row, v), SubstOutcome(row, o)) == SubstOutcome(row, Prepended(kind, v, o))
    ensures OutcomeOk(row, Prepended(kind, v, o))
  {
    if o.Val? {
      PrependCommutes(row, n, |o.state.frames|, v, o.value.elements);
    }
  }

  /** Iteration yields the corresponding items. */
  lemma IterateCommutes(w: World, row: Row, n: nat, v: Value)
    requires ValueOk(row, n, v)
    ensures Iterate(w, SubstValue(row, v))
         == match Iterate(w, v) { case None => None case Some(items) => Some(SubstValues(row, items)) }
    ensures Iterate(w, v).Some? ==> AllOk(row, n, Iterate(w, v).value)
  {
    DataUnchanged(row, v);
    if IsData(v) && Iterate(w, v).Some? {
      var items := Iterate(w, v).value;
      assert forall x :: x in items ==> IsData(x);
      DatasUnchanged(row, items);
      forall x | x in items ensures ValueOk(row, n, x) {
        DataOk(row, n, x);
      }
    }
  }

  lemma OperateCommutes(w: World, row: Row, op: string, a: Value, b: Value, st: State)
    requires GoodRow(row) && Inv(row, st)
    ensures Operate(w, op, SubstValue(row, a), SubstValue(row, b), SubstState(row, st))
         == SubstOutcome(row, Operate(w, op, a, b, st))
    ensures OutcomeOk(row, Operate(w, op, a, b, st))
  {
    DataUnchanged(row, a);
    DataUnchanged(row, b);
    var reply := w.binary(op, a, b);
    DataUnchanged(row, reply.value);
    DataOk(row, |st.frames|, reply.value);
  }

  // ---- what passes between the test and the outside ----------------------------------------

  lemma {:induction false} SubstValuesConcat(row: Row, a: seq<Value>, b: seq<Value>)
    ensures SubstValues(row, a + b) == SubstValues(row, a) + SubstValues(row, b)
  {
    if a == [] {
      assert a + b == b;
    } else {
      assert (a + b)[1..] == a[1..] + b;
      SubstValuesConcat(row, a[1..], b);
    }
  }

  /** The outside gets the corresponding functions. */
  lemma {:induction false} FunctionsSame(row: Row, v: Value)
    ensures Functions(SubstValue(row, v)) == SubstValues(row, Functions(v))
  {
    if v.Collection? {
      AllFunctionsSame(row, v.elements);
    }
  }

  lemma {:induction false} AllFunctionsSame(row: Row, vs: seq<Value>)
    ensures AllFunctions(SubstValues(row, vs)) == SubstValues(row, AllFunctions(vs))
  {
    if vs != [] {
      FunctionsSame(row, vs[0]);
      AllFunctionsSame(row, vs[1..]);
      SubstValuesConcat(row, Functions(vs[0]), AllFunctions(vs[1..]));
    }
  }

  /** And it sees the same. */
  lemma {:induction false} ShownSame(row: Row, v: Value, n: nat)
    ensures Shown(SubstValue(row, v), n) == Shown(v, n)
  {
    if v.Collection? {
      AllShownSame(row, v.elements, n);
    }
  }

  lemma {:induction false} AllShownSame(row: Row, vs: seq<Value>, n: nat)
    ensures AllShown(SubstValues(row, vs), n) == AllShown(vs, n)
  {
    if vs != [] {
      ShownSame(row, vs[0], n);
      FunctionsSame(row, vs[0]);
      AllShownSame(row, vs[1..], n + |Functions(vs[0])|);
    }
  }

  lemma {:induction false} FunctionsOk(row: Row, n: nat, v: Value)
    requires ValueOk(row, n, v)
    ensures AllOk(row, n, Functions(v))
  {
    if v.Collection? {
      AllFunctionsOk(row, n, v.elements);
    }
  }

  lemma {:induction false} AllFunctionsOk(row: Row, n: nat, vs: seq<Value>)
    requires AllOk(row, n, vs)
    ensures AllOk(row, n, AllFunctions(vs))
  {
    if vs != [] {
      FunctionsOk(row, n, vs[0]);
      AllFunctionsOk(row, n, vs[1..]);
    }
  }

  lemma HandOverCommutes(row: Row, st: State, v: Value)
    requires GoodRow(row) && Inv(row, st) && ValueOk(row, |st.frames|, v)
    ensures HandOver(SubstState(row, st), SubstValue(row, v)) == SubstState(row, HandOver(st, v))
    ensures Inv(row, HandOver(st, v))
  {
    FunctionsSame(row, v);
    FunctionsOk(row, |st.frames|, v);
    SubstValuesConcat(row, st.handed, Functions(v));
  }

  lemma CallOutCommutes(row: Row, st: State, name: string, args: Value)
    requires GoodRow(row) && Inv(row, st) && ValueOk(row, |st.frames|, args)
    ensures Shown(SubstValue(row, args), |SubstState(row, st).handed|) == Shown(args, |st.handed|)
    ensures CallOut(SubstState(row, st), name, SubstValue(row, args)) == SubstState(row, CallOut(st, name, args))
    ensures Inv(row, CallOut(st, name, args))
  {
    HandOverCommutes(row, st, args);
    ShownSame(row, args, |st.handed|);
  }

  lemma ComeBackCommutes(row: Row, o: Outcome)
    requires GoodRow(row) && OutcomeOk(row, o) && !o.NoFuel?
    ensures ComeBack(SubstOutcome(row, o)) == SubstState(row, ComeBack(o))
    ensures Inv(row, ComeBack(o))
  {
    var v := if o.Val? then o.value else o.error;
    HandOverCommutes(row, o.state, v);
    ShownSame(row, v, |o.state.handed|);
  }

  lemma {:induction false} SubstValuesAt(row: Row, vs: seq<Value>, i: nat)
    requires i < |vs|
    ensures SubstValues(row, vs)[i] == SubstValue(row, vs[i])
  {
    if i > 0 {
      SubstValuesAt(row, vs[1..], i - 1);
    }
  }

  lemma ResolveCommutes(row: Row, st: State, f: Value)
    requires GoodRow(row) && Inv(row, st) && ValueOk(row, |st.frames|, f)
    ensures Resolve(SubstState(row, st), SubstValue(row, f)) == SubstValue(row, Resolve(st, f))
    ensures ValueOk(row, |st.frames|, Resolve(st, f))
  {
    if f.Handed? && f.handle < |st.handed| {
      SubstValuesAt(row, st.handed, f.handle);
    }
  }

  lemma ConcludedCommutes(row: Row, st: State, reply: Reply)
    requires GoodRow(row) && Inv(row, st)
    ensures Concluded(SubstState(row, st), reply) == SubstOutcome(row, Concluded(st, reply))
    ensures OutcomeOk(row, Concluded(st, reply))
  {
    DataUnchanged(row, reply.value);
    DataOk(row, |st.frames|, reply.value);
  }

  lemma PassedIn(row: Row, n: nat, vs: seq<Datum>)
    ensures SubstValues(row, vs) == vs && AllOk(row, n, vs)
  {
    DatasUnchanged(row, vs);
    forall x | x in vs ensures ValueOk(row, n, x) {
      DataOk(row, n, x);
    }
  }

  // ---- evaluation commutes with substitution -----------------------------------------------

  ghost predicate Ready(row: Row, st: State, cur: nat) {
    GoodRow(row) && Inv(row, st) && cur < |st.frames|
  }

  lemma {:induction false} EvalCommutes(w: World, row: Row, fuel: nat, e: Expr, st: State, cur: nat)
    requires Ready(row, st, cur) && !RebindsExpr(e, row.Keys)
    ensures Eval(w, fuel, SubstExpr(row, e), SubstState(row, st), cur) == SubstOutcome(row, Eval(w, fuel, e, st, cur))
    ensures OutcomeOk(row, Eval(w, fuel, e, st, cur))
    decreases fuel, e, 1
  {
    match e
    case Const(_) =>
    case Name(id) => LookupCommutes(w, row, fuel, id, st, cur);
    case Display(_, _) => DisplayCommutes(w, row, fuel, e, st, cur);
    case Binary(_, _, _) => BinaryCommutes(w, row, fuel, e, st, cur);
    case IfExp(_, _, _) => IfExpCommutes(w, row, fuel, e, st, cur);
    case Lambda(_, _) =>
    case Call(_, _) => CallCommutes(w, row, fuel, e, st, cur);
    case NamedExpr(_, _) => NamedExprCommutes(w, row, fuel, e, st, cur);
    case ListComp(_, _, _) => ListCompCommutes(w, row, fuel, e, st, cur);
  }

  lemma {:induction false} DisplayCommutes(w: World, row: Row, fuel: nat, e: Expr, st: State, cur: nat)
    requires e.Display? && Ready(row, st, cur) && !RebindsExpr(e, row.Keys)
    ensures Eval(w, fuel, SubstExpr(row, e), SubstState(row, st), cur) == SubstOutcome(row, Eval(w, fuel, e, st, cur))
    ensures OutcomeOk(row, Eval(w, fuel, e, st, cur))
    decreases fuel, e, 0
  {
    EvalAllCommutes(w, row, fuel, e.elements, st, cur);
    match EvalAll(w, fuel, e.elements, st, cur)
    case Val(vs, s) => BuildableSame(row, e.kind, vs.elements);
    case _ =>
  }

  lemma {:induction false} BinaryCommutes(w: World, row: Row, fuel: nat, e: Expr, st: State, cur: nat)
    requires e.Binary? && Ready(row, st, cur) && !RebindsExpr(e, row.Keys)
    ensures Eval(w, fuel, SubstExpr(row, e), SubstState(row, st), cur) == SubstOutcome(row, Eval(w, fuel, e, st, cur))
    ensures OutcomeOk(row, Eval(w, fuel, e, st, cur))
    decreases fuel, e, 0
  {
    EvalCommutes(w, row, fuel, e.left, st, cur);
    match Eval(w, fuel, e.left, st, cur)
    case Val(a, s1) =>
      EvalCommutes(w, row, fuel, e.right, s1, cur);
      match Eval(w, fuel, e.right, s1, cur) {
        case Val(b, s2) => OperateCommutes(w, row, e.op, a, b, s2);
        case _ =>
      }
    case _ =>
  }

  lemma {:induction false} IfExpCommutes(w: World, row: Row, fuel: nat, e: Expr, st: State, cur: nat)
    requires e.IfExp? && Ready(row, st, cur) && !RebindsExpr(e, row.Keys)
    ensures Eval(w, fuel, SubstExpr(row, e), SubstState(row, st), cur) == SubstOutcome(row, Eval(w, fuel, e, st, cur))
    ensures OutcomeOk(row, Eval(w, fuel, e, st, cur))
    decreases fuel, e, 0
  {
    EvalCommutes(w, row, fuel, e.test, st, cur);
    match Eval(w, fuel, e.test, st, cur)
    case Val(v, s1) =>
      TruthSame(row, v);
      EvalCommutes(w, row, fuel, if Truthy(v) then e.body else e.orelse, s1, cur);
    case _ =>
  }

  lemma {:induction false} CallCommutes(w: World, row: Row, fuel: nat, e: Expr, st: State, cur: nat)
    requires e.Call? && Ready(row, st, cur) && !RebindsExpr(e, row.Keys)
    ensures Eval(w, fuel, SubstExpr(row, e), SubstState(row, st), cur) == SubstOutcome(row, Eval(w, fuel, e, st, cur))
    ensures OutcomeOk(row, Eval(w, fuel, e, st, cur))
    decreases fuel, e, 0
  {
    EvalCommutes(w, row, fuel, e.func, st, cur);
    match Eval(w, fuel, e.func, st, cur)
    case Val(fv, s1) => CallWithCommutes(w, row, fuel, fv, e.args, s1, cur);
    case _ =>
  }

  lemma {:induction false} CallWithCommutes(w: World, row: Row, fuel: nat, fv: Value, args: seq<Expr>, st: State,
                                            cur: nat)
    requires Ready(row, st, cur) && ValueOk(row, |st.frames|, fv) && !RebindsExprs(args, row.Keys)
    ensures CallWith(w, fuel, SubstValue(row, fv), SubstExprs(row, args), SubstState(row, st), cur)
         == SubstOutcome(row, CallWith(w, fuel, fv, args, st, cur))
    ensures OutcomeOk(row, CallWith(w, fuel, fv, args, st, cur))
    decreases fuel, args, 1
  {
    EvalAllCommutes(w, row, fuel, args, st, cur);
    match EvalAll(w, fuel, args, st, cur)
    case Val(vs, s) =>
      if fuel > 0 {
        ValueOkGrows(row, |st.frames|, |s.frames|, fv);
        ApplyCommutes(w, row, fuel - 1, fv, vs.elements, s);
        assert vs == Collection(TupleKind, vs.elements);
      }
    case _ =>
  }

  lemma {:induction false} NamedExprCommutes(w: World, row: Row, fuel: nat, e: Expr, st: State, cur: nat)
    requires e.NamedExpr? && Ready(row, st, cur) && !RebindsExpr(e, row.Keys)
    ensures Eval(w, fuel, SubstExpr(row, e), SubstState(row, st), cur) == SubstOutcome(row, Eval(w, fuel, e, st, cur))
    ensures OutcomeOk(row, Eval(w, fuel, e, st, cur))
    decreases fuel, e, 0
  {
    EvalCommutes(w, row, fuel, e.value, st, cur);
    match Eval(w, fuel, e.value, st, cur)
    case Val(v, s1) => BindCommutes(row, s1, e.target, v, cur);
    case _ =>
  }

  lemma {:induction false} ListCompCommutes(w: World, row: Row, fuel: nat, e: Expr, st: State, cur: nat)
    requires e.ListComp? && Ready(row, st, cur) && !RebindsExpr(e, row.Keys)
    ensures Eval(w, fuel, SubstExpr(row, e), SubstState(row, st), cur) == SubstOutcome(row, Eval(w, fuel, e, st, cur))
    ensures OutcomeOk(row, Eval(w, fuel, e, st, cur))
    decreases fuel, e, 0
  {
    EvalCommutes(w, row, fuel, e.iter, st, cur);
    match Eval(w, fuel, e.iter, st, cur)
    case Val(vs, s) => CompCommutes(w, row, fuel, e.element, e.target, vs, s, cur);
    case _ =>
  }

  lemma {:induction false} CompCommutes(w: World, row: Row, fuel: nat, el: Expr, x: string, vs: Value, st: State,
                                        cur: nat)
    requires Ready(row, st, cur) && ValueOk(row, |st.frames|, vs) && !RebindsExpr(el, row.Keys) && x !in row
    ensures Comp(w, fuel, SubstExpr(row, el), x, SubstValue(row, vs), SubstState(row, st), cur)
         == SubstOutcome(row, Comp(w, fuel, el, x, vs, st, cur))
    ensures OutcomeOk(row, Comp(w, fuel, el, x, vs, st, cur))
    decreases fuel, el, 4
  {
    IterateCommutes(w, row, |st.frames|, vs);
    match Iterate(w, vs)
    case Some(items) => ScopedEachCommutes(w, row, fuel, el, x, items, st, cur);
    case None =>
  }

  lemma {:induction false} ScopedEachCommutes(w: World, row: Row, fuel: nat, el: Expr, x: string, items: seq<Value>,
                                              st: State, cur: nat)
    requires Ready(row, st, cur) && AllOk(row, |st.frames|, items) && !RebindsExpr(el, row.Keys) && x !in row
    ensures Each(w, fuel, SubstExpr(row, el), x, SubstValues(row, items),
                 Enter(SubstState(row, st), Scope(x, cur)), |st.frames|)
         == SubstOutcome(row, Each(w, fuel, el, x, items, Enter(st, Scope(x, cur)), |st.frames|))
    ensures OutcomeOk(row, Each(w, fuel, el, x, items, Enter(st, Scope(x, cur)), |st.frames|))
    decreases fuel, el, 3
  {
    ScopeCommutes(row, st, x, cur);
    AllOkGrows(row, |st.frames|, |st.frames| + 1, items);
    EachCommutes(w, row, fuel, el, x, items, Enter(st, Scope(x, cur)), |st.frames|);
  }

  lemma ScopeCommutes(row: Row, st: State, target: string, cur: nat)
    requires Ready(row, st, cur) && target !in row
    ensures SubstState(row, Enter(st, Scope(target, cur))) == Enter(SubstState(row, st), Scope(target, cur))
    ensures Inv(row, Enter(st, Scope(target, cur)))
  {
    var f := Scope(target, cur);
    EnterCommutes(row, st, f);
    assert f.locals - row.Keys == f.locals;
    assert SubstFrame(row, f).vars == map[];
  }

  lemma {:induction false} EvalAllCommutes(w: World, row: Row, fuel: nat, es: seq<Expr>, st: State, cur: nat)
    requires Ready(row, st, cur) && !RebindsExprs(es, row.Keys)
    ensures EvalAll(w, fuel, SubstExprs(row, es), SubstState(row, st), cur)
         == SubstOutcome(row, EvalAll(w, fuel, es, st, cur))
    ensures OutcomeOk(row, EvalAll(w, fuel, es, st, cur))
    decreases fuel, es, 0
  {
    if es != [] {
      EvalCommutes(w, row, fuel, es[0], st, cur);
      match Eval(w, fuel, es[0], st, cur)
      case Val(v, s1) =>
        EvalAllCommutes(w, row, fuel, es[1..], s1, cur);
        PrependedCommutes(row, TupleKind, |s1.frames|, v, EvalAll(w, fuel, es[1..], s1, cur));
      case _ =>
    }
  }

  lemma {:induction false} EachCommutes(w: World, row: Row, fuel: nat, el: Expr, x: string, items: seq<Value>,
                                        st: State, cur: nat)
    requires Ready(row, st, cur) && !RebindsExpr(el, row.Keys) && x !in row && AllOk(row, |st.frames|, items)
    ensures Each(w, fuel, SubstExpr(row, el), x, SubstValues(row, items), SubstState(row, st), cur)
         == SubstOutcome(row, Each(w, fuel, el, x, items, st, cur))
    ensures OutcomeOk(row, Each(w, fuel, el, x, items, st, cur))
    decreases fuel, el, 2, |items|
  {
    if items != [] {
      BindCommutes(row, st, x, items[0], cur);
      var s0 := Bind(st, x, items[0], cur);
      EvalCommutes(w, row, fuel, el, s0, cur);
      match Eval(w, fuel, el, s0, cur)
      case Val(v, s1) =>
        AllOkGrows(row, |st.frames|, |s1.frames|, items);
        EachCommutes(w, row, fuel, el, x, items[1..], s1, cur);
        PrependedCommutes(row, ListKind, |s1.frames|, v, Each(w, fuel, el, x, items[1..], s1, cur));
      case _ =>
    }
  }

  lemma {:induction false} ApplyCommutes(w: World, row: Row, fuel: nat, f: Value, args: seq<Value>, st: State)
    requires GoodRow(row) && Inv(row, st) && ValueOk(row, |st.frames|, f) && AllOk(row, |st.frames|, args)
    ensures Apply(w, fuel, SubstValue(row, f), Collection(TupleKind, SubstValues(row, args)), SubstState(row, st))
         == SubstOutcome(row, Apply(w, fuel, f, Collection(TupleKind, args), st))
    ensures OutcomeOk(row, Apply(w, fuel, f, Collection(TupleKind, args), st))
    decreases fuel
  {
    var passed := Collection(TupleKind, args);
    ResolveCommutes(row, st, f);
    match Resolve(st, f)
    case Outside(name) =>
      CallOutCommutes(row, st, name, passed);
      ConverseCommutes(w, row, fuel, name, Shown(passed, |st.handed|), CallOut(st, name, passed));
    case Closure(params, code, parent) =>
      if |params| == |args| {
        ActivationCommutes(row, |st.frames|, params, code, args, parent);
        var frame := Activation(params, code, args, parent);
        EnterCommutes(row, st, frame);
        PerformCommutes(w, row, fuel, code, Enter(st, frame), |st.frames|);
      }
    case _ =>
  }

  lemma {:induction false} PerformCommutes(w: World, row: Row, fuel: nat, code: Code, st: State, cur: nat)
    requires Ready(row, st, cur) && !RebindsCode(code, row.Keys)
    ensures Perform(w, fuel, SubstCode(row, code), SubstState(row, st), cur)
         == SubstOutcome(row, Perform(w, fuel, code, st, cur))
    ensures OutcomeOk(row, Perform(w, fuel, code, st, cur))
    decreases fuel, code
  {
    match code
    case Single(e) => EvalCommutes(w, row, fuel, e, st, cur);
    case Suite(body) => RunCommutes(w, row, fuel, body, st, cur);
  }

  lemma {:induction false} ConverseCommutes(w: World, row: Row, fuel: nat, name: string, args: Datum, st: State)
    requires GoodRow(row) && Inv(row, st)
    ensures Converse(w, fuel, name, args, SubstState(row, st)) == SubstOutcome(row, Converse(w, fuel, name, args, st))
    ensures OutcomeOk(row, Converse(w, fuel, name, args, st))
    decreases fuel, 1
  {
    match w.outside(name, args, st.trace)
    case Answer(reply) => ConcludedCommutes(row, st, reply);
    case CallBack(handle, vs) =>
      if fuel > 0 {
        CallBackCommutes(w, row, fuel, handle, vs, st);
        var o := CalledBackWith(w, fuel, handle, vs, st);
        if !o.NoFuel? {
          ComeBackCommutes(row, o);
          ConverseCommutes(w, row, fuel - 1, name, args, ComeBack(o));
        }
      }
  }

  lemma {:induction false} CallBackCommutes(w: World, row: Row, fuel: nat, handle: nat, vs: seq<Datum>, st: State)
    requires GoodRow(row) && Inv(row, st) && fuel > 0
    ensures CalledBackWith(w, fuel, handle, vs, SubstState(row, st))
         == SubstOutcome(row, CalledBackWith(w, fuel, handle, vs, st))
    ensures OutcomeOk(row, CalledBackWith(w, fuel, handle, vs, st))
    decreases fuel, 0
  {
    PassedIn(row, |st.frames|, vs);
    ApplyCommutes(w, row, fuel - 1, Handed(handle), vs, Note(st, CalledBack(handle, vs)));
  }

  lemma {:induction false} StepCommutes(w: World, row: Row, fuel: nat, s: Stmt, st: State, cur: nat)
    requires Ready(row, st, cur) && !RebindsStmt(s, row.Keys)
    ensures Step(w, fuel, SubstStmt(row, s), SubstState(row, st), cur) == SubstFlow(row, Step(w, fuel, s, st, cur))
    ensures FlowOk(row, Step(w, fuel, s, st, cur))
    decreases fuel, s, 1
  {
    match s
    case Assign(_, _) => AssignCommutes(w, row, fuel, s, st, cur);
    case ExprStmt(value) => EvalCommutes(w, row, fuel, value, st, cur);
    case Assert(_) => AssertCommutes(w, row, fuel, s, st, cur);
    case If(_, _, _) => IfCommutes(w, row, fuel, s, st, cur);
    case For(_, _, _) => ForCommutes(w, row, fuel, s, st, cur);
    case While(_, _) => WhileCommutes(w, row, fuel, s, st, cur);
    case FunctionDef(f, params, body) => BindCommutes(row, st, f, Closure(params, Suite(body), cur), cur);
    case Return(value) => EvalCommutes(w, row, fuel, value, st, cur);
    case Try(_, _, _) => TryCommutes(w, row, fuel, s, st, cur);
    case Import(name, x) => BindCommutes(row, st, x, Outside(name), cur);
    case Nonlocal(_) =>
  }

  lemma {:induction false} AssignCommutes(w: World, row: Row, fuel: nat, s: Stmt, st: State, cur: nat)
    requires s.Assign? && Ready(row, st, cur) && !RebindsStmt(s, row.Keys)
    ensures Step(w, fuel, SubstStmt(row, s), SubstState(row, st), cur) == SubstFlow(row, Step(w, fuel, s, st, cur))
    ensures FlowOk(row, Step(w, fuel, s, st, cur))
    decreases fuel, s, 0
  {
    EvalCommutes(w, row, fuel, s.value, st, cur);
    match Eval(w, fuel, s.value, st, cur)
    case Val(v, s1) => BindCommutes(row, s1, s.target, v, cur);
    case _ =>
  }

  lemma {:induction false} AssertCommutes(w: World, row: Row, fuel: nat, s: Stmt, st: State, cur: nat)
    requires s.Assert? && Ready(row, st, cur) && !RebindsStmt(s, row.Keys)
    ensures Step(w, fuel, SubstStmt(row, s), SubstState(row, st), cur) == SubstFlow(row, Step(w, fuel, s, st, cur))
    ensures FlowOk(row, Step(w, fuel, s, st, cur))
    decreases fuel, s, 0
  {
    EvalCommutes(w, row, fuel, s.test, st, cur);
    match Eval(w, fuel, s.test, st, cur)
    case Val(v, _) => TruthSame(row, v);
    case _ =>
  }

  lemma {:induction false} IfCommutes(w: World, row: Row, fuel: nat, s: Stmt, st: State, cur: nat)
    requires s.If? && Ready(row, st, cur) && !RebindsStmt(s, row.Keys)
    ensures Step(w, fuel, SubstStmt(row, s), SubstState(row, st), cur) == SubstFlow(row, Step(w, fuel, s, st, cur))
    ensures FlowOk(row, Step(w, fuel, s, st, cur))
    decreases fuel, s, 0
  {
    EvalCommutes(w, row, fuel, s.test, st, cur);
    match Eval(w, fuel, s.test, st, cur)
    case Val(v, s1) =>
      TruthSame(row, v);
      RunCommutes(w, row, fuel, if Truthy(v) then s.body else s.orelse, s1, cur);
    case _ =>
  }

  lemma {:induction false} ForCommutes(w: World, row: Row, fuel: nat, s: Stmt, st: State, cur: nat)
    requires s.For? && Ready(row, st, cur) && !RebindsStmt(s, row.Keys)
    ensures Step(w, fuel, SubstStmt(row, s), SubstState(row, st), cur) == SubstFlow(row, Step(w, fuel, s, st, cur))
    ensures FlowOk(row, Step(w, fuel, s, st, cur))
    decreases fuel, s, 0
  {
    EvalCommutes(w, row, fuel, s.iter, st, cur);
    match Eval(w, fuel, s.iter, st, cur)
    case Val(v, s1) =>
      IterateCommutes(w, row, |s1.frames|, v);
      match Iterate(w, v) {
        case Some(items) => LoopCommutes(w, row, fuel, s.target, items, s.body, s1, cur);
        case None =>
      }
    case _ =>
  }

  lemma {:induction false} WhileCommutes(w: World, row: Row, fuel: nat, s: Stmt, st: State, cur: nat)
    requires s.While? && Ready(row, st, cur) && !RebindsStmt(s, row.Keys)
    ensures Step(w, fuel, SubstStmt(row, s), SubstState(row, st), cur) == SubstFlow(row, Step(w, fuel, s, st, cur))
    ensures FlowOk(row, Step(w, fuel, s, st, cur))
    decreases fuel, s, 0
  {
    EvalCommutes(w, row, fuel, s.test, st, cur);
    match Eval(w, fuel, s.test, st, cur)
    case Val(v, s1) =>
      TruthSame(row, v);
      if Truthy(v) {
        RunCommutes(w, row, fuel, s.body, s1, cur);
        match Run(w, fuel, s.body, s1, cur)
        case Normal(s2) => if fuel > 0 { StepCommutes(w, row, fuel - 1, s, s2, cur); }
        case _ =>
      }
    case _ =>
  }

  lemma CloseHandlerCommutes(row: Row, f: Flow, x: string, cur: nat)
    requires GoodRow(row) && FlowOk(row, f) && x !in row && (!f.Exhausted? ==> cur < |f.state.frames|)
    ensures CloseHandler(SubstFlow(row, f), x, cur) == SubstFlow(row, CloseHandler(f, x, cur))
    ensures FlowOk(row, CloseHandler(f, x, cur))
  {
    if !f.Exhausted? {
      UnbindCommutes(row, f.state, x, cur);
    }
  }

  lemma {:induction false} TryCommutes(w: World, row: Row, fuel: nat, s: Stmt, st: State, cur: nat)
    requires s.Try? && Ready(row, st, cur) && !RebindsStmt(s, row.Keys)
    ensures Step(w, fuel, SubstStmt(row, s), SubstState(row, st), cur) == SubstFlow(row, Step(w, fuel, s, st, cur))
    ensures FlowOk(row, Step(w, fuel, s, st, cur))
    decreases fuel, s, 0
  {
    RunCommutes(w, row, fuel, s.body, st, cur);
    match Run(w, fuel, s.body, st, cur)
    case Raised(v, s1) =>
      BindCommutes(row, s1, s.caught, v, cur);
      var caught := Bind(s1, s.caught, v, cur);
      RunCommutes(w, row, fuel, s.handler, caught, cur);
      CloseHandlerCommutes(row, Run(w, fuel, s.handler, caught, cur), s.caught, cur);
    case _ =>
  }

  lemma {:induction false} RunCommutes(w: World, row: Row, fuel: nat, body: seq<Stmt>, st: State, cur: nat)
    requires Ready(row, st, cur) && !Rebinds(body, row.Keys)
    ensures Run(w, fuel, SubstBody(row, body), SubstState(row, st), cur) == SubstFlow(row, Run(w, fuel, body, st, cur))
    ensures FlowOk(row, Run(w, fuel, body, st, cur))
    decreases fuel, body, 0
  {
    if body != [] {
      StepCommutes(w, row, fuel, body[0], st, cur);
      match Step(w, fuel, body[0], st, cur)
      case Normal(s1) => RunCommutes(w, row, fuel, body[1..], s1, cur);
      case _ =>
    }
  }

  lemma {:induction false} LoopCommutes(w: World, row: Row, fuel: nat, x: string, items: seq<Value>, body: seq<Stmt>,
                                        st: State, cur: nat)
    requires Ready(row, st, cur) && !Rebinds(body, row.Keys) && x !in row && AllOk(row, |st.frames|, items)
    ensures Loop(w, fuel, x, SubstValues(row, items), SubstBody(row, body), SubstState(row, st), cur)
         == SubstFlow(row, Loop(w, fuel, x, items, body, st, cur))
    ensures FlowOk(row, Loop(w, fuel, x, items, body, st, cur))
    decreases fuel, body, 2, |items|
  {
    if items != [] {
      BindCommutes(row, st, x, items[0], cur);
      var s0 := Bind(st, x, items[0], cur);
      RunCommutes(w, row, fuel, body, s0, cur);
      match Run(w, fuel, body, s0, cur)
      case Normal(s1) =>
        AllOkGrows(row, |st.frames|, |s1.frames|, items);
        LoopCommutes(w, row, fuel, x, items[1..], body, s1, cur);
      case _ =>
    }
  }

  // ---- whole tests -------------------------------------------------------------------------

  /** The test's own activation: parameters of the row, and whatever else the test is given. */
  lemma StartCommutes(row: Row, given: map<string, Value>, body: seq<Stmt>)
    requires GoodRow(row) && !Rebinds(body, row.Keys) && given.Keys !! row.Keys
    requires forall k :: k in given ==> IsData(given[k])
    ensures Inv(row, Start(given + Bindings(row), body))
    ensures SubstState(row, Start(given + Bindings(row), body)) == Start(given, SubstBody(row, body))
  {
    BodyScope(row, body);
    BodyNonlocals(row, body);
    var f := Start(given + Bindings(row), body).frames[0];
    var g := Start(given, SubstBody(row, body)).frames[0];
    assert f.locals - row.Keys == g.locals;
    forall k | k in f.vars
      ensures ValueOk(row, 1, f.vars[k]) && (k in given ==> SubstValue(row, f.vars[k]) == given[k])
    {
      if k in row {
        LiteralIsData(row[k]);
      }
      DataOk(row, 1, f.vars[k]);
      DataUnchanged(row, f.vars[k]);
    }
    assert SubstFrame(row, f).vars == g.vars;
  }

  /**
   A test whose body rebinds no parameter, run with its parameters bound to a row, and the body with the
   row's literals in their place, run without them: the same verdict after the same exchange with the outside,
   callbacks included, however far evaluation is followed and whatever else the test is given.
   */
  lemma SubstitutedTestRunsAlike(w: World, fuel: nat, row: Row, given: map<string, Value>, body: seq<Stmt>)
    requires GoodRow(row) && !Rebinds(body, row.Keys) && given.Keys !! row.Keys
    requires forall k :: k in given ==> IsData(given[k])
    ensures var bound := RunTest(w, fuel, given + Bindings(row), body);
            var plain := RunTest(w, fuel, given, SubstBody(row, body));
            plain == SubstFlow(row, bound) && SameVerdict(bound, plain)
  {
    StartCommutes(row, given, body);
    RunCommutes(w, row, fuel, body, Start(given + Bindings(row), body), 0);
    match RunTest(w, fuel, given + Bindings(row), body)
    case Returned(v, _) => DataUnchanged(row, v);
    case Raised(v, _) => DataUnchanged(row, v);
    case _ =>
  }

  /** The same kind of ending with the same data, after the same exchange with the outside. */
  predicate SameVerdict(a: Flow, b: Flow) {
    match (a, b)
    case (Normal(s), Normal(t)) => s.trace == t.trace
    case (Returned(v, s), Returned(u, t)) => s.trace == t.trace && (IsData(v) ==> u == v)
    case (Raised(v, s), Raised(u, t)) => s.trace == t.trace && (IsData(v) ==> u == v)
    case (Exhausted, Exhausted) => true
    case _ => false
  }

  /** The body rebinds a parameter of the row, and substituting the row changes the verdict. */
  ghost predicate Misjudged(w: World, row: Row, body: seq<Stmt>) {
    && GoodRow(row)
    && Rebinds(body, row.Keys)
    && !SameVerdict(RunTest(w, 1, Bindings(row), body), RunTest(w, 1, map[], SubstBody(row, body)))
  }

  /** `x = 0; assert x`, with the row `x = 1`. */
  const REBINDER: seq<Stmt> := [Assign("x", Const(IntLit(0))), Assert(Name("x"))]
  const REBINDER_ROW: Row := map["x" := Const(IntLit(1))]

  lemma RebinderFails(w: World)
    ensures RunTest(w, 1, Bindings(REBINDER_ROW), REBINDER).Raised?
  {
    var s0 := Start(Bindings(REBINDER_ROW), REBINDER);
    var s1 := Bind(s0, "x", Data(IntLit(0)), 0);
    assert Step(w, 1, REBINDER[0], s0, 0) == Normal(s1);
    assert Eval(w, 1, Name("x"), s1, 0) == Val(Data(IntLit(0)), s1);
    assert Step(w, 1, REBINDER[1], s1, 0) == Raised(ASSERTION_ERROR, s1);
    assert Run(w, 1, REBINDER[1..], s1, 0) == Raised(ASSERTION_ERROR, s1);
  }

  lemma RebinderPassesSubstituted(w: World)
    ensures RunTest(w, 1, map[], SubstBody(REBINDER_ROW, REBINDER)).Normal?
  {
    var body := [Assign("x", Const(IntLit(0))), Assert(Const(IntLit(1)))];
    assert SubstBody(REBINDER_ROW, REBINDER[1..]) == [Assert(Const(IntLit(1)))];
    assert SubstBody(REBINDER_ROW, REBINDER) == body;
    var s0 := Start(map[], body);
    var s1 := Bind(s0, "x", Data(IntLit(0)), 0);
    assert Step(w, 1, body[0], s0, 0) == Normal(s1);
    assert Step(w, 1, body[1], s1, 0) == Normal(s1);
    assert Run(w, 1, body[1..], s1, 0) == Normal(s1);
  }

  /** The guard is needed: a body that rebinds a parameter can fail where the substituted one passes. */
  lemma RebindingDefeatsSubstitution(w: World)
    ensures exists row, body :: Misjudged(w, row, body)
  {
    RebinderFails(w);
    RebinderPassesSubstituted(w);
    var bound := RunTest(w, 1, Bindings(REBINDER_ROW), REBINDER);
    var plain := RunTest(w, 1, map[], SubstBody(REBINDER_ROW, REBINDER));
    assert !SameVerdict(bound, plain);
    assert Misjudged(w, REBINDER_ROW, REBINDER);
  }

  // ---- expanded bodies ---------------------------------------------------------------------

  /** An entry of the parameter table reads as the row: the entry itself, or its elements, one to a parameter. */
  predicate ReadsAs(arity: nat, element: Expr, row: seq<Expr>) {
    if arity == 1 then IsLiteral(element) && row == [element]
    else
      && element.Display? && (element.kind.TupleKind? || element.kind.ListKind?)
      && |element.elements| == arity && (forall x :: x in element.elements ==> IsLiteral(x))
      && row == element.elements
  }

  function RowOf(arity: nat, element: Expr): (r: Option<seq<Expr>>)
    ensures r.Some? ==> ReadsAs(arity, element, r.value) && |r.value| == arity
    ensures r.Some? ==> forall x :: x in r.value ==> IsLiteral(x)
    ensures r.None? ==> forall row :: !ReadsAs(arity, element, row)
  {
    if arity == 1 then if IsLiteral(element) then Some([element]) else None
    else if element.Display? && (element.kind.TupleKind? || element.kind.ListKind?) && |element.elements| == arity
            && IsLiteral(element) then Some(element.elements)
    else None
  }

  predicate LastAt<K(==)>(keys: seq<K>, i: nat)
    requires i < |keys|
  {
    forall j :: i < j < |keys| ==> keys[j] != keys[i]
  }

  /** Every parameter has the literal in its place; of a name that recurs, the last one counts. */
  predicate Placed(argnames: seq<string>, row: seq<Expr>, r: Row)
    requires |argnames| == |row|
  {
    forall i: nat :: i < |argnames| && LastAt(argnames, i) ==> argnames[i] in r && r[argnames[i]] == row[i]
  }

  predicate InOrder(argnames: seq<string>, row: seq<Expr>, r: Row)
    requires |argnames| == |row|
  {
    r.Keys == (set p | p in argnames) && Placed(argnames, row, r)
  }

  /** `dict(zip(argnames, row))` */
  function Zip(argnames: seq<string>, row: seq<Expr>): (r: Row)
    requires |argnames| == |row|
    ensures forall p :: p in r <==> p in argnames
  {
    if row == [] then map[]
    else Zip(argnames[..|row| - 1], row[..|row| - 1])[argnames[|row| - 1] := row[|row| - 1]]
  }

  lemma PlacedSnoc(argnames: seq<string>, row: seq<Expr>, r: Row)
    requires |argnames| == |row| && row != []
    requires Placed(argnames[..|row| - 1], row[..|row| - 1], r)
    ensures Placed(argnames, row, r[argnames[|row| - 1] := row[|row| - 1]])
  {
    var n := |row| - 1;
    var names := argnames[..n];
    forall i: nat | i < n && LastAt(argnames, i) ensures LastAt(names, i) && argnames[i] != argnames[n] {
      assert forall j :: i < j < n ==> names[j] == argnames[j];
    }
  }

  lemma {:induction false} ZipPlaces(argnames: seq<string>, row: seq<Expr>)
    requires |argnames| == |row|
    ensures Placed(argnames, row, Zip(argnames, row))
    decreases |row|
  {
    if row != [] {
      ZipPlaces(argnames[..|row| - 1], row[..|row| - 1]);
      PlacedSnoc(argnames, row, Zip(argnames[..|row| - 1], row[..|row| - 1]));
    }
  }

  lemma ZipInOrder(argnames: seq<string>, row: seq<Expr>)
    requires |argnames| == |row|
    ensures InOrder(argnames, row, Zip(argnames, row))
  {
    ZipPlaces(argnames, row);
  }

  lemma {:induction false} LastOccurrence<K>(keys: seq<K>, key: K) returns (i: nat)
    requires key in keys
    ensures i < |keys| && keys[i] == key && LastAt(keys, i)
  {
    var n := |keys| - 1;
    if keys[n] == key {
      i := n;
    } else {
      i := LastOccurrence(keys[..n], key);
      assert forall j :: i < j < n ==> keys[j] == keys[..n][j];
    }
  }

  lemma LiteralsInOrder(argnames: seq<string>, row: seq<Expr>, r: Row)
    requires |argnames| == |row| && InOrder(argnames, row, r) && forall x :: x in row ==> IsLiteral(x)
    ensures GoodRow(r)
  {
    forall p | p in r ensures IsLiteral(r[p]) {
      var i := LastOccurrence(argnames, p);
      assert r[p] == row[i];
    }
  }

  /** There is only one such assignment. */
  lemma OnlyOneInOrder(argnames: seq<string>, row: seq<Expr>, r: Row, s: Row)
    requires |argnames| == |row| && InOrder(argnames, row, r) && InOrder(argnames, row, s)
    ensures r == s
  {
    forall p | p in r ensures r[p] == s[p] {
      var i := LastOccurrence(argnames, p);
    }
  }

  predicate Expandable(argnames: seq<string>, table: seq<Expr>) {
    argnames != [] && table != [] && forall i :: 0 <= i < |table| ==> RowOf(|argnames|, table[i]).Some?
  }

  function Rows(argnames: seq<string>, table: seq<Expr>): (rows: seq<seq<Expr>>)
    requires Expandable(argnames, table)
    ensures |rows| == |table| && forall i :: 0 <= i < |table| ==> RowOf(|argnames|, table[i]) == Some(rows[i])
  {
    seq(|table|, i requires 0 <= i < |table| => RowOf(|argnames|, table[i]).value)
  }

  function BodyAt(argnames: seq<string>, row: seq<Expr>, body: seq<Stmt>): seq<Stmt>
    requires |argnames| == |row|
  {
    SubstBody(Zip(argnames, row), body)
  }

  /** The body with the literals of the row in the places of the parameters. */
  ghost predicate IsBodyAt(argnames: seq<string>, row: seq<Expr>, body: seq<Stmt>, b: seq<Stmt>)
    requires |argnames| == |row|
  {
    exists r: Row :: InOrder(argnames, row, r) && b == SubstBody(r, body)
  }

  lemma BodyAtIsIt(argnames: seq<string>, row: seq<Expr>, body: seq<Stmt>, b: seq<Stmt>)
    requires |argnames| == |row|
    ensures IsBodyAt(argnames, row, body, b) <==> b == BodyAt(argnames, row, body)
  {
    ZipInOrder(argnames, row);
    if r: Row :| InOrder(argnames, row, r) && b == SubstBody(r, body) {
      OnlyOneInOrder(argnames, row, r, Zip(argnames, row));
    }
  }

  function Bodies(argnames: seq<string>, rows: seq<seq<Expr>>, body: seq<Stmt>): (bodies: seq<seq<Stmt>>)
    requires forall i :: 0 <= i < |rows| ==> |rows[i]| == |argnames|
    ensures |bodies| == |rows|
  {
    seq(|rows|, i requires 0 <= i < |rows| => BodyAt(argnames, rows[i], body))
  }

  /** The map holds every key, each with the value at its first occurrence. */
  ghost predicate FirstWins<K, V>(keys: seq<K>, values: seq<V>, m: map<K, V>) {
    && |keys| == |values|
    && m.Keys == (set k | k in keys)
    && (forall i :: 0 <= i < |keys| && keys[i] !in keys[..i] ==> keys[i] in m && m[keys[i]] == values[i])
  }

  /** `setdefault` */
  lemma FirstWinsSnoc<K, V>(keys: seq<K>, values: seq<V>, m: map<K, V>, key: K, value: V)
    requires FirstWins(keys, values, m)
    ensures FirstWins(keys + [key], values + [value], if key in m then m else m[key := value])
  {
    var ks := keys + [key];
    forall i | 0 <= i < |ks| && ks[i] !in ks[..i]
      ensures var r := if key in m then m else m[key := value]; ks[i] in r && r[ks[i]] == (values + [value])[i]
    {
      assert ks[..i] == keys[..i];
    }
  }

  lemma FirstWinsOn<K, V>(keys: seq<K>, values: seq<V>, m: map<K, V>, i: nat)
    requires i < |keys| == |values| && FirstWins(keys[..i], values[..i], m)
    ensures FirstWins(keys[..i + 1], values[..i + 1], if keys[i] in m then m else m[keys[i] := values[i]])
  {
    FirstWinsSnoc(keys[..i], values[..i], m, keys[i], values[i]);
    assert keys[..i + 1] == keys[..i] + [keys[i]] && values[..i + 1] == values[..i] + [values[i]];
  }

  lemma FirstWinsWhole<K, V>(keys: seq<K>, values: seq<V>, m: map<K, V>)
    requires |keys| == |values| && FirstWins(keys[..|values|], values[..|values|], m)
    ensures FirstWins(keys, values, m)
  {
    assert keys[..|values|] == keys && values[..|values|] == values;
  }

  lemma {:induction false} FirstOccurrence<K>(keys: seq<K>, key: K) returns (i: nat)
    requires key in keys
    ensures i < |keys| && keys[i] == key && key !in keys[..i]
  {
    if keys[0] == key {
      i := 0;
    } else {
      var rest := FirstOccurrence(keys[1..], key);
      i := rest + 1;
      assert keys[..i] == [keys[0]] + keys[1..][..rest];
    }
  }

  /** `parametrize_rows` */
  method ParametrizeRows(argnames: seq<string>, table: seq<Expr>) returns (rows: Option<seq<seq<Expr>>>)
    requires argnames != []
    ensures rows.Some? <==> Expandable(argnames, table)
    ensures rows.Some? ==> rows.value == Rows(argnames, table)
  {
    if table == [] {
      return None;
    }
    var read: seq<seq<Expr>> := [];
    for i := 0 to |table|
      invariant |read| == i
      invariant forall k :: 0 <= k < i ==> RowOf(|argnames|, table[k]) == Some(read[k])
    {
      var row := RowOf(|argnames|, table[i]);
      if row.None? {
        return None;
      }
      read := read + [row.value];
    }
    return Some(read);
  }

  /** The row at `i` is the first of the table that yields the body `b`. */
  ghost predicate FirstRow(argnames: seq<string>, table: seq<Expr>, body: seq<Stmt>, b: seq<Stmt>, i: nat)
    requires Expandable(argnames, table) && i < |table|
  {
    && IsBodyAt(argnames, Rows(argnames, table)[i], body, b)
    && forall k :: 0 <= k < i ==> !IsBodyAt(argnames, Rows(argnames, table)[k], body, b)
  }

  /** The map has exactly the bodies the rows yield, each with the first row that yields it. */
  ghost predicate Expanded(
    argnames: seq<string>, table: seq<Expr>, body: seq<Stmt>, byBody: map<seq<Stmt>, seq<Expr>>)
    requires Expandable(argnames, table)
  {
    && (forall b :: b in byBody ==> |byBody[b]| == |argnames|)
    && (forall b :: b in byBody ==> exists i: nat :: i < |table| && FirstRow(argnames, table, body, b, i))
    && (forall b, i: nat :: i < |table| && FirstRow(argnames, table, body, b, i) ==>
          b in byBody && byBody[b] == Rows(argnames, table)[i])
  }

  lemma FirstWinsIsExpanded(
    argnames: seq<string>, table: seq<Expr>, body: seq<Stmt>, byBody: map<seq<Stmt>, seq<Expr>>)
    requires Expandable(argnames, table)
    requires FirstWins(Bodies(argnames, Rows(argnames, table), body), Rows(argnames, table), byBody)
    ensures Expanded(argnames, table, body, byBody)
  {
    var rows := Rows(argnames, table);
    var keys := Bodies(argnames, rows, body);
    forall b, i: nat | i < |table| ensures IsBodyAt(argnames, rows[i], body, b) <==> b == keys[i] {
      BodyAtIsIt(argnames, rows[i], body, b);
    }
    forall b | b in byBody ensures exists i: nat :: i < |table| && FirstRow(argnames, table, body, b, i) {
      var i := FirstOccurrence(keys, b);
      assert forall k :: 0 <= k < i ==> keys[k] == keys[..i][k];
      assert FirstRow(argnames, table, body, b, i);
    }
    forall b, i: nat | i < |table| && FirstRow(argnames, table, body, b, i)
      ensures b in byBody && byBody[b] == rows[i]
    {
      assert keys[i] == b && b !in keys[..i];
    }
  }

  /** `expanded_bodies`: every substituted body with the first row that yields it. */
  method ExpandedBodies(argnames: seq<string>, table: seq<Expr>, body: seq<Stmt>)
    returns (byBody: Option<map<seq<Stmt>, seq<Expr>>>)
    ensures byBody.Some? <==> Expandable(argnames, table) && !Rebinds(body, set p | p in argnames)
    ensures byBody.Some? ==> Expanded(argnames, table, body, byBody.value)
  {
    if argnames == [] {
      return None;
    }
    var parsed := ParametrizeRows(argnames, table);
    if parsed.None? {
      return None;
    }
    var rows := parsed.value;
    if Rebinds(body, set p | p in argnames) {
      return None;
    }
    var m: map<seq<Stmt>, seq<Expr>> := map[];
    ghost var keys := Bodies(argnames, rows, body);
    for i := 0 to |rows|
      invariant FirstWins(keys[..i], rows[..i], m)
    {
      var key := BodyAt(argnames, rows[i], body);
      FirstWinsOn(keys, rows, m, i);
      if key !in m {
        m := m[key := rows[i]];
      }
    }
    FirstWinsWhole(keys, rows, m);
    FirstWinsIsExpanded(argnames, table, body, m);
    return Some(m);
  }

  /**
   What a reported duplicate means: a plain test with one of the substituted bodies does what the
   parametrised test does with its parameters bound, in their order, to the literals of the row reported.
   */
  lemma {:induction false} ReportedDuplicateRunsAlike(
    w: World, fuel: nat, argnames: seq<string>, table: seq<Expr>, body: seq<Stmt>,
    byBody: map<seq<Stmt>, seq<Expr>>, plain: seq<Stmt>, values: Row, given: map<string, Value>)
    requires Expandable(argnames, table) && !Rebinds(body, set p | p in argnames)
    requires Expanded(argnames, table, body, byBody) && plain in byBody
    requires InOrder(argnames, byBody[plain], values)
    requires forall k :: k in given ==> k !in argnames && IsData(given[k])
    ensures byBody[plain] in Rows(argnames, table) && GoodRow(values)
    ensures SameVerdict(RunTest(w, fuel, given + Bindings(values), body), RunTest(w, fuel, given, plain))
  {
    var i: nat :| i < |table| && FirstRow(argnames, table, body, plain, i);
    var row := Rows(argnames, table)[i];
    BodyAtIsIt(argnames, row, body, plain);
    ZipInOrder(argnames, row);
    OnlyOneInOrder(argnames, row, values, Zip(argnames, row));
    LiteralsInOrder(argnames, row, values);
    assert values.Keys == set p | p in argnames;
    SubstitutedTestRunsAlike(w, fuel, values, given, body);
  }
}
