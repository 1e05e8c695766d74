/** The part of JavaScript the inliner (scripts/inline-functions.ts) works on: effectful
    expressions with short circuits and comparisons, and block-structured statements. */
module JsSubset {
  import opened Basics

  datatype Value = Undefined | Null | Bool(b: bool) | Num(n: int) | NaN | Str(s: string) | Ref(id: nat)

  predicate Truthy(v: Value) {
    match v
    case Undefined => false
    case Null => false
    case Bool(b) => b
    case Num(n) => n != 0
    case NaN => false
    case Str(s) => s != []
    case Ref(_) => true
  }

  datatype Comparator = StrictEq | StrictNe | LooseEq | LooseNe | Lt | Gt | Le | Ge

  datatype BinOp = OrElse | AndThen | Compare(op: Comparator)

  datatype Expr =
    | Lit(value: Value)
    | Var(x: string)
    | Assign(target: string, e: Expr)
    | Call(callee: Expr, args: Exprs)
    | Member(obj: Expr, prop: string)
    | Not(operand: Expr)
    | Bin(bop: BinOp, l: Expr, r: Expr)
    | Paren(inner: Expr)

  datatype Exprs = ENil | ECons(head: Expr, tail: Exprs)

  /** `Decl` is `const x = e` or `let x = e`; the branches of `If` are blocks. */
  datatype Stmt =
    | Decl(x: string, e: Expr)
    | Do(e: Expr)
    | If(cond: Expr, then_: Stmts, else_: Stmts)
    | Block(body: Stmts)

  datatype Stmts = SNil | SCons(first: Stmt, rest: Stmts)

  function Append(a: Stmts, b: Stmts): Stmts {
    match a
    case SNil => b
    case SCons(s, rest) => SCons(s, Append(rest, b))
  }

  // ---------------------------------------------------------------- semantics

  /** What a name outside every private scope denotes: a variable of an enclosing function
      of the call site, or one of the module. Any call may read and write these. */
  datatype Binding = Caller(x: string) | Module(x: string)

  datatype Effect = Called(f: Value, args: seq<Value>) | Got(obj: Value, prop: string)

  datatype World = World(vars: map<Binding, Value>, trace: seq<Effect>)

  datatype Answer = Yields(value: Value) | Throws(error: Value)

  datatype Order = Less | Equal | Greater | Unordered

  /** The code this file does not show: what calls and property reads do (anything, to
      anything but private variables), how values are ordered, and `==`. */
  datatype Host = Host(
    call: (Value, seq<Value>, World) -> (Answer, World),
    get: (Value, string, World) -> (Answer, World),
    order: (Value, Value) -> Order,
    loose: (Value, Value) -> bool)

  /** Block-scoped variables; `None` before the declaration has run. */
  type Locals = map<string, Option<Value>>

  datatype State = State(world: World, locals: Locals)

  const ReferenceError := Str("ReferenceError")

  predicate Compares(h: Host, op: Comparator, a: Value, b: Value) {
    match op
    case StrictEq => a == b && a != NaN
    case StrictNe => !(a == b && a != NaN)
    case LooseEq => h.loose(a, b)
    case LooseNe => !h.loose(a, b)
    case Lt => h.order(a, b) == Less
    case Gt => h.order(a, b) == Greater
    case Le => h.order(a, b) in {Less, Equal}
    case Ge => h.order(a, b) in {Greater, Equal}
  }

  function Resolve(x: string, c: set<string>): Binding {
    if x in c then Caller(x) else Module(x)
  }

  /** `c` names the enclosing functions' variables that are in scope. */
  function Read(x: string, c: set<string>, s: State): Answer {
    if x in s.locals then
      if s.locals[x].Some? then Yields(s.locals[x].value) else Throws(ReferenceError)
    else if Resolve(x, c) in s.world.vars then Yields(s.world.vars[Resolve(x, c)])
    else Throws(ReferenceError)
  }

  function Write(x: string, v: Value, c: set<string>, s: State): (Answer, State) {
    if x in s.locals then
      if s.locals[x].Some? then (Yields(v), s.(locals := s.locals[x := Some(v)])) else (Throws(ReferenceError), s)
    else if Resolve(x, c) in s.world.vars then
      (Yields(v), s.(world := s.world.(vars := s.world.vars[Resolve(x, c) := v])))
    else (Throws(ReferenceError), s)
  }

  function Observe(w: World, e: Effect): World {
    w.(trace := w.trace + [e])
  }

  function Eval(h: Host, e: Expr, c: set<string>, s: State): (Answer, State)
    decreases e
  {
    match e
    case Lit(v) => (Yields(v), s)
    case Var(x) => (Read(x, c, s), s)
    case Assign(x, e1) =>
      var (a, s1) := Eval(h, e1, c, s);
      if a.Throws? then (a, s1) else Write(x, a.value, c, s1)
    case Call(f, args) =>
      var (a, s1) := Eval(h, f, c, s);
      if a.Throws? then (a, s1)
      else
        var (vs, s2) := EvalArgs(h, args, c, s1);
        if vs.Err? then (Throws(vs.error), s2)
        else
          var (r, w) := h.call(a.value, vs.value, Observe(s2.world, Called(a.value, vs.value)));
          (r, s2.(world := w))
    case Member(o, p) =>
      var (a, s1) := Eval(h, o, c, s);
      if a.Throws? then (a, s1)
      else
        var (r, w) := h.get(a.value, p, Observe(s1.world, Got(a.value, p)));
        (r, s1.(world := w))
    case Not(e1) =>
      var (a, s1) := Eval(h, e1, c, s);
      if a.Throws? then (a, s1) else (Yields(Bool(!Truthy(a.value))), s1)
    case Bin(op, l, r) =>
      var (a, s1) := Eval(h, l, c, s);
      if a.Throws? then (a, s1)
      else (match op
            case OrElse => if Truthy(a.value) then (a, s1) else Eval(h, r, c, s1)
            case AndThen => if !Truthy(a.value) then (a, s1) else Eval(h, r, c, s1)
            case Compare(cmp) =>
              var (b, s2) := Eval(h, r, c, s1);
              if b.Throws? then (b, s2) else (Yields(Bool(Compares(h, cmp, a.value, b.value))), s2))
    case Paren(e1) => Eval(h, e1, c, s)
  }

  /** Arguments, left to right. */
  function EvalArgs(h: Host, es: Exprs, c: set<string>, s: State): (Result<seq<Value>, Value>, State)
    decreases es
  {
    match es
    case ENil => (Ok([]), s)
    case ECons(e, rest) =>
      var (a, s1) := Eval(h, e, c, s);
      if a.Throws? then (Err(a.error), s1)
      else
        var (vs, s2) := EvalArgs(h, rest, c, s1);
        if vs.Err? then (vs, s2) else (Ok([a.value] + vs.value), s2)
  }

  /** `None`: ran to the end; `Some(v)`: threw `v`. */
  type Completion = Option<Value>

  /** The names a statement list declares in its own block. */
  function Declared(ss: Stmts): set<string> {
    match ss
    case SNil => {}
    case SCons(Decl(x, _), rest) => {x} + Declared(rest)
    case SCons(_, rest) => Declared(rest)
  }

  function Enter(locals: Locals, declared: set<string>): (r: Locals)
    ensures forall x :: x in r <==> x in locals || x in declared
    ensures forall x :: x in r ==> r[x] == if x in declared then None else locals[x]
  {
    locals + (map x | x in declared :: None)
  }

  /** The block's own variables are gone, the outer ones of the same names visible again. */
  function Leave(inner: Locals, outer: Locals, declared: set<string>): (r: Locals)
    ensures forall x :: x in r <==> if x in declared then x in outer else x in inner
    ensures forall x :: x in r ==> r[x] == if x in declared then outer[x] else inner[x]
  {
    (map x | x in inner && x !in declared :: inner[x]) + (map x | x in outer && x in declared :: outer[x])
  }

  function Exec(h: Host, s: Stmt, c: set<string>, st: State): (Completion, State)
    decreases s, 0
  {
    match s
    case Decl(x, e) =>
      var (a, s1) := Eval(h, e, c, st);
      if a.Throws? then (Some(a.error), s1) else (None, s1.(locals := s1.locals[x := Some(a.value)]))
    case Do(e) =>
      var (a, s1) := Eval(h, e, c, st);
      (if a.Throws? then Some(a.error) else None, s1)
    case If(e, t, f) =>
      var (a, s1) := Eval(h, e, c, st);
      if a.Throws? then (Some(a.error), s1)
      else if Truthy(a.value) then ExecBlock(h, t, c, s1)
      else ExecBlock(h, f, c, s1)
    case Block(b) => ExecBlock(h, b, c, st)
  }

  function ExecBlock(h: Host, ss: Stmts, c: set<string>, st: State): (Completion, State)
    decreases ss, 1
  {
    var (r, s1) := ExecAll(h, ss, c, st.(locals := Enter(st.locals, Declared(ss))));
    (r, s1.(locals := Leave(s1.locals, st.locals, Declared(ss))))
  }

  function ExecAll(h: Host, ss: Stmts, c: set<string>, st: State): (Completion, State)
    decreases ss, 0
  {
    match ss
    case SNil => (None, st)
    case SCons(s, rest) =>
      var (r, s1) := Exec(h, s, c, st);
      if r.Some? then (r, s1) else ExecAll(h, rest, c, s1)
  }

  lemma {:induction false} ExecAppend(h: Host, a: Stmts, b: Stmts, c: set<string>, st: State)
    ensures var (r, s1) := ExecAll(h, a, c, st);
            ExecAll(h, Append(a, b), c, st) == if r.Some? then (r, s1) else ExecAll(h, b, c, s1)
  {
    match a
    case SNil =>
    case SCons(s, rest) =>
      var (r, s1) := Exec(h, s, c, st);
      if r.None? { ExecAppend(h, rest, b, c, s1); }
  }

  lemma ExecOne(h: Host, s: Stmt, c: set<string>, st: State)
    ensures ExecAll(h, SCons(s, SNil), c, st) == Exec(h, s, c, st)
  {
    hide Exec;
  }
}
