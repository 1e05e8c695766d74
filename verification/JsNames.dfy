/** Free names, binding-aware substitution, and the simulation between a piece of code and
    its substituted copy in another scope. */
module JsNames {
  import opened Basics
  import opened JsSubset

  // ------------------------------------------------------------------- names

  function Free(e: Expr): set<string> {
    match e
    case Lit(_) => {}
    case Var(x) => {x}
    case Assign(x, e1) => {x} + Free(e1)
    case Call(f, args) => Free(f) + FreeArgs(args)
    case Member(o, _) => Free(o)
    case Not(e1) => Free(e1)
    case Bin(_, l, r) => Free(l) + Free(r)
    case Paren(e1) => Free(e1)
  }

  function FreeArgs(es: Exprs): set<string> {
    match es
    case ENil => {}
    case ECons(e, rest) => Free(e) + FreeArgs(rest)
  }

  /** The names a list uses or declares at its own level, or uses freely below it. */
  function Level(ss: Stmts): set<string>
    decreases ss, 0
  {
    match ss
    case SNil => {}
    case SCons(s, rest) => LevelStmt(s) + Level(rest)
  }

  function LevelStmt(s: Stmt): set<string>
    decreases s, 0
  {
    match s
    case Decl(x, e) => {x} + Free(e)
    case Do(e) => Free(e)
    case If(e, t, f) => Free(e) + FreeBlock(t) + FreeBlock(f)
    case Block(b) => FreeBlock(b)
  }

  function FreeBlock(ss: Stmts): set<string>
    decreases ss, 1
  {
    Level(ss) - Declared(ss)
  }

  /** Names assigned, as free names. */
  function Writes(e: Expr): set<string> {
    match e
    case Lit(_) => {}
    case Var(_) => {}
    case Assign(x, e1) => {x} + Writes(e1)
    case Call(f, args) => Writes(f) + WritesArgs(args)
    case Member(o, _) => Writes(o)
    case Not(e1) => Writes(e1)
    case Bin(_, l, r) => Writes(l) + Writes(r)
    case Paren(e1) => Writes(e1)
  }

  function WritesArgs(es: Exprs): set<string> {
    match es
    case ENil => {}
    case ECons(e, rest) => Writes(e) + WritesArgs(rest)
  }

  /** Names assigned or declared at this level, or assigned freely below it. */
  function WritesLevel(ss: Stmts): set<string>
    decreases ss, 0
  {
    match ss
    case SNil => {}
    case SCons(s, rest) => WritesStmt(s) + WritesLevel(rest)
  }

  function WritesStmt(s: Stmt): set<string>
    decreases s, 0
  {
    match s
    case Decl(x, e) => {x} + Writes(e)
    case Do(e) => Writes(e)
    case If(e, t, f) => Writes(e) + WritesBlock(t) + WritesBlock(f)
    case Block(b) => WritesBlock(b)
  }

  function WritesBlock(ss: Stmts): set<string>
    decreases ss, 1
  {
    WritesLevel(ss) - Declared(ss)
  }

  /** The names declared in blocks nested inside. */
  function Nested(ss: Stmts): set<string>
    decreases ss, 0
  {
    match ss
    case SNil => {}
    case SCons(s, rest) => NestedStmt(s) + Nested(rest)
  }

  function NestedStmt(s: Stmt): set<string>
    decreases s, 0
  {
    match s
    case Decl(_, _) => {}
    case Do(_) => {}
    case If(_, t, f) => NestedBlock(t) + NestedBlock(f)
    case Block(b) => NestedBlock(b)
  }

  function NestedBlock(ss: Stmts): set<string>
    decreases ss, 1
  {
    Declared(ss) + Nested(ss)
  }

  /** Every identifier in the text. */
  function Mentions(ss: Stmts): set<string> {
    Level(ss) + Nested(ss) + Inner(ss)
  }

  /** Names used in nested blocks, also where a nested declaration captures them. */
  function Inner(ss: Stmts): set<string>
    decreases ss, 0
  {
    match ss
    case SNil => {}
    case SCons(s, rest) => InnerStmt(s) + Inner(rest)
  }

  function InnerStmt(s: Stmt): set<string>
    decreases s, 0
  {
    match s
    case Decl(_, _) => {}
    case Do(_) => {}
    case If(_, t, f) => Level(t) + Inner(t) + Level(f) + Inner(f)
    case Block(b) => Level(b) + Inner(b)
  }

  // ------------------------------------------------------------ substitution

  type Subst = map<string, Expr>

  function Rename(x: string, th: Subst): string {
    if x in th && th[x].Var? then th[x].x else x
  }

  function Apply(e: Expr, th: Subst): Expr {
    match e
    case Lit(_) => e
    case Var(x) => if x in th then th[x] else e
    case Assign(x, e1) => Assign(Rename(x, th), Apply(e1, th))
    case Call(f, args) => Call(Apply(f, th), ApplyArgs(args, th))
    case Member(o, p) => Member(Apply(o, th), p)
    case Not(e1) => Not(Apply(e1, th))
    case Bin(op, l, r) => Bin(op, Apply(l, th), Apply(r, th))
    case Paren(e1) => Paren(Apply(e1, th))
  }

  function ApplyArgs(es: Exprs, th: Subst): Exprs {
    match es
    case ENil => ENil
    case ECons(e, rest) => ECons(Apply(e, th), ApplyArgs(rest, th))
  }

  function ApplyAll(ss: Stmts, th: Subst): Stmts
    decreases ss, 0
  {
    match ss
    case SNil => SNil
    case SCons(s, rest) => SCons(ApplyStmt(s, th), ApplyAll(rest, th))
  }

  function ApplyStmt(s: Stmt, th: Subst): Stmt
    decreases s, 0
  {
    match s
    case Decl(x, e) => Decl(Rename(x, th), Apply(e, th))
    case Do(e) => Do(Apply(e, th))
    case If(e, t, f) => If(Apply(e, th), ApplyBlock(t, th), ApplyBlock(f, th))
    case Block(b) => Block(ApplyBlock(b, th))
  }

  /** A declaration in the block shields its name. */
  function ApplyBlock(ss: Stmts, th: Subst): Stmts
    decreases ss, 1
  {
    ApplyAll(ss, th - Declared(ss))
  }

  // ----------------------------------------------------------------- capture

  /** No name in what stands for one of the names is declared in the block. */
  predicate NoCapture(th: Subst, names: set<string>, declared: set<string>) {
    forall x :: x in names && x in th ==> Free(th[x]) !! declared
  }

  /** No block declares a name in what stands for a name used freely in that block. */
  predicate CaptureFreeBlock(ss: Stmts, th: Subst)
    decreases ss, 1
  {
    NoCapture(th, FreeBlock(ss), Declared(ss)) && CaptureFreeAll(ss, th - Declared(ss))
  }

  predicate CaptureFreeAll(ss: Stmts, th: Subst)
    decreases ss, 0
  {
    match ss
    case SNil => true
    case SCons(s, rest) => CaptureFreeStmt(s, th) && CaptureFreeAll(rest, th)
  }

  predicate CaptureFreeStmt(s: Stmt, th: Subst)
    decreases s, 0
  {
    match s
    case If(_, t, f) => CaptureFreeBlock(t, th) && CaptureFreeBlock(f, th)
    case Block(b) => CaptureFreeBlock(b, th)
    case _ => true
  }

  // ------------------------------------------------------- plain expressions

  /** An expression that only reads variables: no assignment, no call, no property. */
  predicate Plain(e: Expr) {
    match e
    case Lit(_) => true
    case Var(_) => true
    case Not(e1) => Plain(e1)
    case Bin(_, l, r) => Plain(l) && Plain(r)
    case Paren(e1) => Plain(e1)
    case _ => false
  }

  /** Every name is a private variable whose declaration has run. */
  predicate Ready(names: set<string>, l: Locals) {
    forall x :: x in names ==> x in l && l[x].Some?
  }

  function PlainValue(h: Host, e: Expr, l: Locals): Value
    requires Plain(e) && Ready(Free(e), l)
  {
    match e
    case Lit(v) => v
    case Var(x) => l[x].value
    case Not(e1) => Bool(!Truthy(PlainValue(h, e1, l)))
    case Bin(op, a, b) =>
      var v := PlainValue(h, a, l);
      (match op
       case OrElse => if Truthy(v) then v else PlainValue(h, b, l)
       case AndThen => if !Truthy(v) then v else PlainValue(h, b, l)
       case Compare(cmp) => Bool(Compares(h, cmp, v, PlainValue(h, b, l))))
    case Paren(e1) => PlainValue(h, e1, l)
  }

  /** A plain expression over ready variables has a value, and evaluating it does nothing. */
  lemma {:induction false} EvalPlain(h: Host, e: Expr, c: set<string>, s: State)
    requires Plain(e) && Ready(Free(e), s.locals)
    ensures Eval(h, e, c, s) == (Yields(PlainValue(h, e, s.locals)), s)
  {
    match e
    case Not(e1) => EvalPlain(h, e1, c, s);
    case Bin(_, l, r) => EvalPlain(h, l, c, s); EvalPlain(h, r, c, s);
    case Paren(e1) => EvalPlain(h, e1, c, s);
    case _ =>
  }

  /** Its value depends on the variables in it alone. */
  lemma {:induction false} PlainSame(h: Host, e: Expr, l: Locals, l1: Locals)
    requires Plain(e) && Ready(Free(e), l) && forall y :: y in Free(e) ==> y in l1 && l1[y] == l[y]
    ensures Ready(Free(e), l1) && PlainValue(h, e, l1) == PlainValue(h, e, l)
  {
    match e
    case Not(e1) => PlainSame(h, e1, l, l1);
    case Bin(_, a, b) => PlainSame(h, a, l, l1); PlainSame(h, b, l, l1);
    case Paren(e1) => PlainSame(h, e1, l, l1);
    case _ =>
  }

  /** The expression is plain, and in `l` it has the value `v`. */
  predicate Fixed(h: Host, e: Expr, l: Locals, v: Option<Value>) {
    Plain(e) && Ready(Free(e), l) && v == Some(PlainValue(h, e, l))
  }

  lemma FixedSame(h: Host, e: Expr, l: Locals, l1: Locals, v: Option<Value>)
    requires Fixed(h, e, l, v) && forall y :: y in Free(e) && y in l ==> y in l1 && l1[y] == l[y]
    ensures Fixed(h, e, l1, v)
  {
    PlainSame(h, e, l, l1);
  }

  // -------------------------------------------------------------- simulation

  /** The names in what stands for `x` after substitution. */
  function Sources(x: string, th: Subst): set<string> {
    if x in th then Free(th[x]) else {x}
  }

  /** The private variable that stands for `x` after substitution, if it is one. */
  function Image(x: string, th: Subst): Option<string> {
    if x in th then (if th[x].Var? then Some(th[x].x) else None) else Some(x)
  }

  /** `x` is in `f` what its image is in `l`. */
  predicate Stands(h: Host, f: Locals, l: Locals, th: Subst, x: string) {
    x in f &&
    match Image(x, th)
    case Some(y) => y in l && l[y] == f[x]
    case None => Fixed(h, th[x], l, f[x])
  }

  predicate OutsideBoth(f: Locals, l: Locals, cf: set<string>, cl: set<string>, th: Subst, x: string) {
    x !in f && x !in th && x !in l && (x in cf <==> x in cl)
  }

  /** Scope `f` with caller names `cf`, and scope `l` with `cl`, give the names in `ns` the
      same meaning up to the substitution `th`; only names in `ws` are written, and what
      stands for one of those is in what stands for no other name. */
  ghost predicate Related(h: Host, f: Locals, l: Locals, cf: set<string>, cl: set<string>, th: Subst, ns: set<string>, ws: set<string>) {
    && (forall x :: x in ns ==> Stands(h, f, l, th, x) || OutsideBoth(f, l, cf, cl, th, x))
    && (forall x, y :: x in ns && x in ws && y in ns && x in f && y in f && x != y && Image(x, th).Some? ==>
          Image(x, th).value !in Sources(y, th))
  }

  /** `y` is no image of a written name. */
  ghost predicate Untouched(y: string, th: Subst, ws: set<string>) {
    forall x :: x in ws ==> Image(x, th) != Some(y)
  }

  /** The two runs end alike, still related, having changed only what `ws` names. */
  ghost predicate Simulates(h: Host, f: Locals, l: Locals, f1: State, l1: State, cf: set<string>, cl: set<string>, th: Subst, ns: set<string>, ws: set<string>) {
    && f1.world == l1.world
    && f1.locals.Keys == f.Keys && l1.locals.Keys == l.Keys
    && Related(h, f1.locals, l1.locals, cf, cl, th, ns, ws)
    && (forall x :: x in f && x !in ws ==> f1.locals[x] == f[x])
    && (forall y :: y in l && Untouched(y, th, ws) ==> l1.locals[y] == l[y])
  }

  /** What may be written is replaced by variables. */
  predicate Writable(ws: set<string>, th: Subst) {
    forall x :: x in ws && x in th ==> th[x].Var?
  }

  lemma SimulatesTrans(h: Host, f: Locals, l: Locals, f1: State, l1: State, f2: State, l2: State,
                       cf: set<string>, cl: set<string>, th: Subst, ns: set<string>, ws: set<string>)
    requires Simulates(h, f, l, f1, l1, cf, cl, th, ns, ws) && Simulates(h, f1.locals, l1.locals, f2, l2, cf, cl, th, ns, ws)
    ensures Simulates(h, f, l, f2, l2, cf, cl, th, ns, ws)
  {}

  lemma SimulatesMeans(h: Host, f: Locals, l: Locals, f1: State, l1: State, cf: set<string>, cl: set<string>, th: Subst, ns: set<string>, ws: set<string>)
    requires Simulates(h, f, l, f1, l1, cf, cl, th, ns, ws)
    ensures f1.world == l1.world && f1.locals.Keys == f.Keys && l1.locals.Keys == l.Keys && Related(h, f1.locals, l1.locals, cf, cl, th, ns, ws)
  {}

  lemma SimulatesWorld(h: Host, f: Locals, l: Locals, f1: State, l1: State, w: World, cf: set<string>, cl: set<string>, th: Subst, ns: set<string>, ws: set<string>)
    requires Simulates(h, f, l, f1, l1, cf, cl, th, ns, ws)
    ensures Simulates(h, f, l, f1.(world := w), l1.(world := w), cf, cl, th, ns, ws)
  {}

  /** Giving `x` a value, and what stands for it the same, changes no other name. */
  lemma WrittenRelated(h: Host, f: Locals, l: Locals, cf: set<string>, cl: set<string>, th: Subst, ns: set<string>, ws: set<string>, x: string, v: Option<Value>)
    requires Related(h, f, l, cf, cl, th, ns, ws) && x in ns * ws && x in f && Writable(ws, th)
    ensures Rename(x, th) in l
    ensures Related(h, f[x := v], l[Rename(x, th) := v], cf, cl, th, ns, ws)
  {
    assert Stands(h, f, l, th, x);
    var y := Rename(x, th);
    var f1, l1 := f[x := v], l[y := v];
    forall z | z in ns ensures Stands(h, f1, l1, th, z) || OutsideBoth(f1, l1, cf, cl, th, z) {
      assert Stands(h, f, l, th, z) || OutsideBoth(f, l, cf, cl, th, z);
      if z != x && z in f && Image(z, th).None? {
        FixedSame(h, th[z], l, l1, f[z]);
      }
    }
  }

  lemma SimulateWrite(h: Host, x: string, v: Value, th: Subst, ns: set<string>, ws: set<string>, cf: set<string>, cl: set<string>, sf: State, sl: State)
    requires sf.world == sl.world && Related(h, sf.locals, sl.locals, cf, cl, th, ns, ws) && x in ns * ws && Writable(ws, th)
    ensures var (a, f1) := Write(x, v, cf, sf);
            var (b, l1) := Write(Rename(x, th), v, cl, sl);
            a == b && Simulates(h, sf.locals, sl.locals, f1, l1, cf, cl, th, ns, ws)
  {
    assert Stands(h, sf.locals, sl.locals, th, x) || OutsideBoth(sf.locals, sl.locals, cf, cl, th, x);
    if x in sf.locals && sf.locals[x].Some? {
      WrittenRelated(h, sf.locals, sl.locals, cf, cl, th, ns, ws, x, Some(v));
    }
    hide Fixed, Sources;
  }

  lemma SimulateRead(x: string, th: Subst, ns: set<string>, ws: set<string>, cf: set<string>, cl: set<string>, h: Host, sf: State, sl: State)
    requires sf.world == sl.world && Related(h, sf.locals, sl.locals, cf, cl, th, ns, ws) && x in ns
    ensures Eval(h, Apply(Var(x), th), cl, sl) == (Read(x, cf, sf), sl)
  {
    assert Stands(h, sf.locals, sl.locals, th, x) || OutsideBoth(sf.locals, sl.locals, cf, cl, th, x);
    if x in sf.locals && Image(x, th).None? {
      EvalPlain(h, th[x], cl, sl);
    }
  }

  lemma {:induction false} SimulateExpr(h: Host, e: Expr, th: Subst, ns: set<string>, ws: set<string>, cf: set<string>, cl: set<string>, sf: State, sl: State)
    requires sf.world == sl.world && Related(h, sf.locals, sl.locals, cf, cl, th, ns, ws)
    requires Free(e) <= ns && Writes(e) <= ws && Writable(ws, th)
    ensures var (a, f1) := Eval(h, e, cf, sf);
            var (b, l1) := Eval(h, Apply(e, th), cl, sl);
            a == b && Simulates(h, sf.locals, sl.locals, f1, l1, cf, cl, th, ns, ws)
    decreases e
  {
    hide Related, Untouched, Writable, Simulates;
    match e
    case Lit(_) => SimulatesRefl(h, sf, sl, cf, cl, th, ns, ws);
    case Var(x) => SimulatesRefl(h, sf, sl, cf, cl, th, ns, ws); SimulateRead(x, th, ns, ws, cf, cl, h, sf, sl);
    case Assign(x, e1) =>
      SimulateExpr(h, e1, th, ns, ws, cf, cl, sf, sl);
      var (a, f1) := Eval(h, e1, cf, sf);
      var (b, l1) := Eval(h, Apply(e1, th), cl, sl);
      if a.Yields? {
        SimulatesMeans(h, sf.locals, sl.locals, f1, l1, cf, cl, th, ns, ws);
        SimulateWrite(h, x, a.value, th, ns, ws, cf, cl, f1, l1);
        SimulatesTrans(h, sf.locals, sl.locals, f1, l1, Write(x, a.value, cf, f1).1, Write(Rename(x, th), a.value, cl, l1).1, cf, cl, th, ns, ws);
      }
    case Call(g, args) =>
      SimulateExpr(h, g, th, ns, ws, cf, cl, sf, sl);
      var (a, f1) := Eval(h, g, cf, sf);
      var (b, l1) := Eval(h, Apply(g, th), cl, sl);
      if a.Yields? {
        SimulatesMeans(h, sf.locals, sl.locals, f1, l1, cf, cl, th, ns, ws);
        SimulateArgs(h, args, th, ns, ws, cf, cl, f1, l1);
        var (vs, f2) := EvalArgs(h, args, cf, f1);
        var (us, l2) := EvalArgs(h, ApplyArgs(args, th), cl, l1);
        SimulatesTrans(h, sf.locals, sl.locals, f1, l1, f2, l2, cf, cl, th, ns, ws);
        SimulatesMeans(h, f1.locals, l1.locals, f2, l2, cf, cl, th, ns, ws);
        SimulatesWorld(h, sf.locals, sl.locals, f2, l2, Eval(h, e, cf, sf).1.world, cf, cl, th, ns, ws);
      }
    case Member(o, _) =>
      SimulateExpr(h, o, th, ns, ws, cf, cl, sf, sl);
      var (f1, l1) := (Eval(h, o, cf, sf).1, Eval(h, Apply(o, th), cl, sl).1);
      SimulatesMeans(h, sf.locals, sl.locals, f1, l1, cf, cl, th, ns, ws);
      SimulatesWorld(h, sf.locals, sl.locals, f1, l1, Eval(h, e, cf, sf).1.world, cf, cl, th, ns, ws);
    case Not(e1) => SimulateExpr(h, e1, th, ns, ws, cf, cl, sf, sl);
    case Paren(e1) => SimulateExpr(h, e1, th, ns, ws, cf, cl, sf, sl);
    case Bin(op, l, r) =>
      SimulateExpr(h, l, th, ns, ws, cf, cl, sf, sl);
      var (a, f1) := Eval(h, l, cf, sf);
      var (b, l1) := Eval(h, Apply(l, th), cl, sl);
      if a.Yields? {
        SimulatesMeans(h, sf.locals, sl.locals, f1, l1, cf, cl, th, ns, ws);
        SimulateExpr(h, r, th, ns, ws, cf, cl, f1, l1);
        SimulatesTrans(h, sf.locals, sl.locals, f1, l1, Eval(h, r, cf, f1).1, Eval(h, Apply(r, th), cl, l1).1, cf, cl, th, ns, ws);
      }
  }

  lemma {:induction false} SimulateArgs(h: Host, es: Exprs, th: Subst, ns: set<string>, ws: set<string>, cf: set<string>, cl: set<string>, sf: State, sl: State)
    requires sf.world == sl.world && Related(h, sf.locals, sl.locals, cf, cl, th, ns, ws)
    requires FreeArgs(es) <= ns && WritesArgs(es) <= ws && Writable(ws, th)
    ensures var (a, f1) := EvalArgs(h, es, cf, sf);
            var (b, l1) := EvalArgs(h, ApplyArgs(es, th), cl, sl);
            a == b && Simulates(h, sf.locals, sl.locals, f1, l1, cf, cl, th, ns, ws)
    decreases es
  {
    hide Related, Untouched, Writable, Simulates;
    match es
    case ENil => SimulatesRefl(h, sf, sl, cf, cl, th, ns, ws);
    case ECons(e, rest) =>
      SimulateExpr(h, e, th, ns, ws, cf, cl, sf, sl);
      var (a, f1) := Eval(h, e, cf, sf);
      var (b, l1) := Eval(h, Apply(e, th), cl, sl);
      if a.Yields? {
        SimulatesMeans(h, sf.locals, sl.locals, f1, l1, cf, cl, th, ns, ws);
        SimulateArgs(h, rest, th, ns, ws, cf, cl, f1, l1);
        SimulatesTrans(h, sf.locals, sl.locals, f1, l1, EvalArgs(h, rest, cf, f1).1, EvalArgs(h, ApplyArgs(rest, th), cl, l1).1, cf, cl, th, ns, ws);
      }
  }

  lemma SimulatesRefl(h: Host, sf: State, sl: State, cf: set<string>, cl: set<string>, th: Subst, ns: set<string>, ws: set<string>)
    requires sf.world == sl.world && Related(h, sf.locals, sl.locals, cf, cl, th, ns, ws)
    ensures Simulates(h, sf.locals, sl.locals, sf, sl, cf, cl, th, ns, ws)
  {}

  lemma SimulateDecl(h: Host, x: string, v: Value, th: Subst, ns: set<string>, ws: set<string>, cf: set<string>, cl: set<string>, sf: State, sl: State)
    requires sf.world == sl.world && Related(h, sf.locals, sl.locals, cf, cl, th, ns, ws)
    requires x in ns * ws && x in sf.locals && Writable(ws, th)
    ensures Simulates(h, sf.locals, sl.locals, sf.(locals := sf.locals[x := Some(v)]),
                      sl.(locals := sl.locals[Rename(x, th) := Some(v)]), cf, cl, th, ns, ws)
  {
    hide Fixed, Sources;
    assert Stands(h, sf.locals, sl.locals, th, x);
    WrittenRelated(h, sf.locals, sl.locals, cf, cl, th, ns, ws, x, Some(v));
  }

  lemma {:induction false} SimulateStmt(h: Host, s: Stmt, th: Subst, ns: set<string>, ws: set<string>, cf: set<string>, cl: set<string>, sf: State, sl: State)
    requires sf.world == sl.world && Related(h, sf.locals, sl.locals, cf, cl, th, ns, ws)
    requires LevelStmt(s) <= ns && WritesStmt(s) <= ws && Writable(ws, th) && CaptureFreeStmt(s, th)
    requires s.Decl? ==> s.x in sf.locals
    ensures var (a, f1) := Exec(h, s, cf, sf);
            var (b, l1) := Exec(h, ApplyStmt(s, th), cl, sl);
            a == b && Simulates(h, sf.locals, sl.locals, f1, l1, cf, cl, th, ns, ws)
    decreases s, 0
  {
    hide Related, Untouched, Writable, Simulates;
    match s
    case Decl(x, e) =>
      SimulateExpr(h, e, th, ns, ws, cf, cl, sf, sl);
      var (a, f1) := Eval(h, e, cf, sf);
      var (b, l1) := Eval(h, Apply(e, th), cl, sl);
      if a.Yields? {
        SimulatesMeans(h, sf.locals, sl.locals, f1, l1, cf, cl, th, ns, ws);
        SimulateDecl(h, x, a.value, th, ns, ws, cf, cl, f1, l1);
        SimulatesTrans(h, sf.locals, sl.locals, f1, l1, Exec(h, s, cf, sf).1, Exec(h, ApplyStmt(s, th), cl, sl).1, cf, cl, th, ns, ws);
      }
    case Do(e) => SimulateExpr(h, e, th, ns, ws, cf, cl, sf, sl);
    case If(e, t, f) =>
      SimulateExpr(h, e, th, ns, ws, cf, cl, sf, sl);
      var (a, f1) := Eval(h, e, cf, sf);
      var (b, l1) := Eval(h, Apply(e, th), cl, sl);
      if a.Yields? {
        SimulatesMeans(h, sf.locals, sl.locals, f1, l1, cf, cl, th, ns, ws);
        var branch := if Truthy(a.value) then t else f;
        SimulateBlock(h, branch, th, ns, ws, cf, cl, f1, l1);
        SimulatesTrans(h, sf.locals, sl.locals, f1, l1, ExecBlock(h, branch, cf, f1).1, ExecBlock(h, ApplyBlock(branch, th), cl, l1).1, cf, cl, th, ns, ws);
      }
    case Block(b) => SimulateBlock(h, b, th, ns, ws, cf, cl, sf, sl);
  }

  lemma {:induction false} SimulateAll(h: Host, ss: Stmts, th: Subst, ns: set<string>, ws: set<string>, cf: set<string>, cl: set<string>, sf: State, sl: State)
    requires sf.world == sl.world && Related(h, sf.locals, sl.locals, cf, cl, th, ns, ws)
    requires Level(ss) <= ns && WritesLevel(ss) <= ws && Writable(ws, th) && CaptureFreeAll(ss, th)
    requires Declared(ss) <= sf.locals.Keys
    ensures var (a, f1) := ExecAll(h, ss, cf, sf);
            var (b, l1) := ExecAll(h, ApplyAll(ss, th), cl, sl);
            a == b && Simulates(h, sf.locals, sl.locals, f1, l1, cf, cl, th, ns, ws)
    decreases ss, 0
  {
    hide Related, Untouched, Writable, Simulates;
    match ss
    case SNil => SimulatesRefl(h, sf, sl, cf, cl, th, ns, ws);
    case SCons(s, rest) =>
      SimulateStmt(h, s, th, ns, ws, cf, cl, sf, sl);
      var (a, f1) := Exec(h, s, cf, sf);
      var (b, l1) := Exec(h, ApplyStmt(s, th), cl, sl);
      if a.None? {
        SimulatesMeans(h, sf.locals, sl.locals, f1, l1, cf, cl, th, ns, ws);
        SimulateAll(h, rest, th, ns, ws, cf, cl, f1, l1);
        SimulatesTrans(h, sf.locals, sl.locals, f1, l1, ExecAll(h, rest, cf, f1).1, ExecAll(h, ApplyAll(rest, th), cl, l1).1, cf, cl, th, ns, ws);
      }
  }

  lemma {:induction false} DeclaredApply(ss: Stmts, th: Subst)
    requires Declared(ss) !! th.Keys
    ensures Declared(ApplyAll(ss, th)) == Declared(ss)
  {
    match ss
    case SNil =>
    case SCons(s, rest) => DeclaredApply(rest, th);
  }

  lemma {:induction false} SimulateBlock(h: Host, ss: Stmts, th: Subst, ns: set<string>, ws: set<string>, cf: set<string>, cl: set<string>, sf: State, sl: State)
    requires sf.world == sl.world && Related(h, sf.locals, sl.locals, cf, cl, th, ns, ws)
    requires FreeBlock(ss) <= ns && WritesBlock(ss) <= ws && Writable(ws, th) && CaptureFreeBlock(ss, th)
    ensures var (a, f1) := ExecBlock(h, ss, cf, sf);
            var (b, l1) := ExecBlock(h, ApplyBlock(ss, th), cl, sl);
            a == b && Simulates(h, sf.locals, sl.locals, f1, l1, cf, cl, th, ns, ws)
    decreases ss, 1
  {
    var d := Declared(ss);
    var inner := th - d;
    DeclaredApply(ss, inner);
    WritesAreFree(ss);
    var ef, el := sf.(locals := Enter(sf.locals, d)), sl.(locals := Enter(sl.locals, d));
    EnterRelated(h, sf.locals, sl.locals, cf, cl, th, ns, ws, FreeBlock(ss), WritesBlock(ss), d);
    assert Writable(WritesBlock(ss) + d, inner);
    hide Related, Untouched, Writable, NoCapture, Simulates;
    SimulateAll(h, ss, inner, FreeBlock(ss) + d, WritesBlock(ss) + d, cf, cl, ef, el);
    LeaveSimulates(h, sf, sl, ExecAll(h, ss, cf, ef).1, ExecAll(h, ApplyAll(ss, inner), cl, el).1, cf, cl, th, ns, ws, FreeBlock(ss), WritesBlock(ss), d);
  }

  /** What is written is mentioned. */
  lemma {:induction false} WritesAreFree(ss: Stmts)
    ensures WritesLevel(ss) <= Level(ss)
    decreases ss, 0
  {
    match ss
    case SNil =>
    case SCons(s, rest) => StmtWritesAreFree(s); WritesAreFree(rest);
  }

  lemma {:induction false} StmtWritesAreFree(s: Stmt)
    ensures WritesStmt(s) <= LevelStmt(s)
    decreases s, 0
  {
    match s
    case Decl(_, e) => ExprWritesAreFree(e);
    case Do(e) => ExprWritesAreFree(e);
    case If(e, t, f) => ExprWritesAreFree(e); WritesAreFree(t); WritesAreFree(f);
    case Block(b) => WritesAreFree(b);
  }

  lemma {:induction false} ExprWritesAreFree(e: Expr)
    ensures Writes(e) <= Free(e)
  {
    match e
    case Assign(_, e1) => ExprWritesAreFree(e1);
    case Call(f, args) => ExprWritesAreFree(f); ArgsWritesAreFree(args);
    case Member(o, _) => ExprWritesAreFree(o);
    case Not(e1) => ExprWritesAreFree(e1);
    case Bin(_, l, r) => ExprWritesAreFree(l); ExprWritesAreFree(r);
    case Paren(e1) => ExprWritesAreFree(e1);
    case _ =>
  }

  lemma {:induction false} ArgsWritesAreFree(es: Exprs)
    ensures WritesArgs(es) <= FreeArgs(es)
  {
    match es
    case ENil =>
    case ECons(e, rest) => ExprWritesAreFree(e); ArgsWritesAreFree(rest);
  }

  /** A block that uses the names `fs` of its surroundings, writing `wb`, and declares `d`. */
  ghost predicate BlockNames(ns: set<string>, ws: set<string>, fs: set<string>, wb: set<string>, d: set<string>) {
    fs <= ns && wb <= ws && wb <= fs && fs !! d
  }

  lemma EnterRelated(h: Host, f: Locals, l: Locals, cf: set<string>, cl: set<string>, th: Subst, ns: set<string>, ws: set<string>,
                     fs: set<string>, wb: set<string>, d: set<string>)
    requires Related(h, f, l, cf, cl, th, ns, ws) && NoCapture(th, fs, d) && BlockNames(ns, ws, fs, wb, d)
    ensures Related(h, Enter(f, d), Enter(l, d), cf, cl, th - d, fs + d, wb + d)
  {
    hide Stands, OutsideBoth, Enter, NoCapture, Sources, Image;
    var f', l', th' := Enter(f, d), Enter(l, d), th - d;
    forall x | x in fs + d ensures Stands(h, f', l', th', x) || OutsideBoth(f', l', cf, cl, th', x) {
      EnterStands(h, f, l, cf, cl, th, fs, d, x);
    }
    forall x, y | x in fs + d && x in wb + d && y in fs + d && x in f' && y in f' && x != y && Image(x, th').Some?
      ensures Image(x, th').value !in Sources(y, th')
    {
      EnterApart(th, fs, d, x, y);
    }
  }

  lemma EnterStands(h: Host, f: Locals, l: Locals, cf: set<string>, cl: set<string>, th: Subst, fs: set<string>, d: set<string>, x: string)
    requires x in fs + d && fs !! d && NoCapture(th, fs, d)
    requires x in fs ==> Stands(h, f, l, th, x) || OutsideBoth(f, l, cf, cl, th, x)
    ensures Stands(h, Enter(f, d), Enter(l, d), th - d, x) || OutsideBoth(Enter(f, d), Enter(l, d), cf, cl, th - d, x)
  {
    hide Enter, Fixed;
    if x !in d && Stands(h, f, l, th, x) {
      if Image(x, th).None? {
        FixedSame(h, th[x], l, Enter(l, d), f[x]);
      }
    }
  }

  lemma EnterApart(th: Subst, fs: set<string>, d: set<string>, x: string, y: string)
    requires x in fs + d && y in fs + d && x != y && fs !! d && NoCapture(th, fs, d) && Image(x, th - d).Some?
    requires x in fs && y in fs ==> Image(x, th).None? || Image(x, th).value !in Sources(y, th)
    ensures Image(x, th - d).value !in Sources(y, th - d)
  {}

  lemma LeaveSimulates(h: Host, sf: State, sl: State, f1: State, l1: State, cf: set<string>, cl: set<string>, th: Subst, ns: set<string>, ws: set<string>,
                       fs: set<string>, wb: set<string>, d: set<string>)
    requires Related(h, sf.locals, sl.locals, cf, cl, th, ns, ws) && NoCapture(th, fs, d) && BlockNames(ns, ws, fs, wb, d)
    requires Simulates(h, Enter(sf.locals, d), Enter(sl.locals, d), f1, l1, cf, cl, th - d, fs + d, wb + d)
    ensures Simulates(h, sf.locals, sl.locals, f1.(locals := Leave(f1.locals, sf.locals, d)),
                      l1.(locals := Leave(l1.locals, sl.locals, d)), cf, cl, th, ns, ws)
  {
    LeaveRelated(h, sf.locals, sl.locals, f1, l1, cf, cl, th, ns, ws, fs, wb, d);
    LeaveUnchanged(h, sf.locals, sl.locals, f1, l1, cf, cl, th, ws, fs, wb, d);
    hide Related, Untouched, Leave, Enter, NoCapture;
  }

  lemma LeaveRelated(h: Host, f: Locals, l: Locals, f1: State, l1: State, cf: set<string>, cl: set<string>, th: Subst, ns: set<string>, ws: set<string>,
                     fs: set<string>, wb: set<string>, d: set<string>)
    requires Related(h, f, l, cf, cl, th, ns, ws) && NoCapture(th, fs, d) && BlockNames(ns, ws, fs, wb, d)
    requires Simulates(h, Enter(f, d), Enter(l, d), f1, l1, cf, cl, th - d, fs + d, wb + d)
    ensures Related(h, Leave(f1.locals, f, d), Leave(l1.locals, l, d), cf, cl, th, ns, ws)
  {
    hide Leave, Enter, NoCapture, BlockNames;
    var f2, l2 := Leave(f1.locals, f, d), Leave(l1.locals, l, d);
    assert f2.Keys == f.Keys;
    hide Simulates, Stands, OutsideBoth;
    forall x | x in ns ensures Stands(h, f2, l2, th, x) || OutsideBoth(f2, l2, cf, cl, th, x) {
      LeaveStands(h, f, l, f1, l1, cf, cl, th, ns, ws, fs, wb, d, x);
    }
  }

  lemma LeaveUnchanged(h: Host, f: Locals, l: Locals, f1: State, l1: State, cf: set<string>, cl: set<string>, th: Subst, ws: set<string>,
                       fs: set<string>, wb: set<string>, d: set<string>)
    requires Simulates(h, Enter(f, d), Enter(l, d), f1, l1, cf, cl, th - d, fs + d, wb + d) && wb <= ws
    ensures var f2, l2 := Leave(f1.locals, f, d), Leave(l1.locals, l, d);
            && f2.Keys == f.Keys && l2.Keys == l.Keys
            && (forall x :: x in f && x !in ws ==> f2[x] == f[x])
            && (forall y :: y in l && Untouched(y, th, ws) ==> l2[y] == l[y])
  {
    hide Leave, Enter, Related;
    var l2 := Leave(l1.locals, l, d);
    forall y | y in l && Untouched(y, th, ws) ensures l2[y] == l[y] {
      if y !in d { assert Untouched(y, th - d, wb + d); }
    }
  }

  lemma LeaveStands(h: Host, f: Locals, l: Locals, f1: State, l1: State, cf: set<string>, cl: set<string>, th: Subst, ns: set<string>, ws: set<string>,
                    fs: set<string>, wb: set<string>, d: set<string>, x: string)
    requires Related(h, f, l, cf, cl, th, ns, ws) && NoCapture(th, fs, d) && BlockNames(ns, ws, fs, wb, d) && x in ns
    requires Simulates(h, Enter(f, d), Enter(l, d), f1, l1, cf, cl, th - d, fs + d, wb + d)
    ensures var f2, l2 := Leave(f1.locals, f, d), Leave(l1.locals, l, d);
            Stands(h, f2, l2, th, x) || OutsideBoth(f2, l2, cf, cl, th, x)
  {
    assert Stands(h, f, l, th, x) || OutsideBoth(f, l, cf, cl, th, x);
    if x in fs {
      assert Stands(h, f1.locals, l1.locals, th - d, x) || OutsideBoth(f1.locals, l1.locals, cf, cl, th - d, x);
      hide Related;
      UsedLeaves(h, f, l, f1.locals, l1.locals, cf, cl, th, fs, d, x);
    } else if x in f {
      forall y | y in Sources(x, th) && y !in d ensures y in l && l1.locals[y] == l[y] {
        UnusedStays(h, f, l, cf, cl, th, ns, ws, fs, wb, d, x, y);
      }
      hide Related;
      UnusedLeaves(h, f, l, f1.locals, l1.locals, th, d, x);
    }
  }

  lemma UsedLeaves(h: Host, f: Locals, l: Locals, f1: Locals, l1: Locals, cf: set<string>, cl: set<string>, th: Subst, fs: set<string>, d: set<string>, x: string)
    requires x in fs && fs !! d && NoCapture(th, fs, d)
    requires f1.Keys == f.Keys + d && l1.Keys == l.Keys + d
    requires Stands(h, f1, l1, th - d, x) || OutsideBoth(f1, l1, cf, cl, th - d, x)
    ensures Stands(h, Leave(f1, f, d), Leave(l1, l, d), th, x) || OutsideBoth(Leave(f1, f, d), Leave(l1, l, d), cf, cl, th, x)
  {
    hide Leave, Fixed;
    if Stands(h, f1, l1, th - d, x) && Image(x, th).None? {
      FixedSame(h, th[x], l1, Leave(l1, l, d), f1[x]);
    }
  }

  lemma UnusedLeaves(h: Host, f: Locals, l: Locals, f1: Locals, l1: Locals, th: Subst, d: set<string>, x: string)
    requires Stands(h, f, l, th, x) && f1.Keys == f.Keys + d && l1.Keys == l.Keys + d
    requires x !in d ==> f1[x] == f[x]
    requires forall y :: y in Sources(x, th) && y !in d ==> y in l && l1[y] == l[y]
    ensures Stands(h, Leave(f1, f, d), Leave(l1, l, d), th, x)
  {
    hide Leave, Fixed;
    if Image(x, th).None? {
      FixedSame(h, th[x], l, Leave(l1, l, d), f[x]);
    }
  }

  /** A name the block does not use keeps its value, and so does all in what stands for it. */
  lemma UnusedStays(h: Host, f: Locals, l: Locals, cf: set<string>, cl: set<string>, th: Subst, ns: set<string>, ws: set<string>,
                    fs: set<string>, wb: set<string>, d: set<string>, x: string, y: string)
    requires Related(h, f, l, cf, cl, th, ns, ws) && BlockNames(ns, ws, fs, wb, d)
    requires x in ns && x !in fs && x in f && y in Sources(x, th) && y !in d
    ensures x !in wb && y in l && Untouched(y, th - d, wb + d)
  {
    assert Stands(h, f, l, th, x);
    forall z | z in wb + d ensures Image(z, th - d) != Some(y) {
      if z !in d {
        assert Stands(h, f, l, th, z) || OutsideBoth(f, l, cf, cl, th, z);
      }
    }
  }
}
