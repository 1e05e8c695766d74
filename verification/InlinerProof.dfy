/** Strict-mode inlining is a correct call: replacing every call of a helper in a block, as
    the script does it, leaves what the block does exactly as it was. */
module InlinerProof {
  import opened Basics
  import opened JsSubset
  import opened JsNames
  import opened Inversion
  import opened Inliner

  // ----------------------------------------------------- what a call means

  /** Missing arguments are `undefined`. */
  function Bind(params: seq<string>, values: seq<Value>): Locals {
    if params == [] then map[]
    else
      var v := if values == [] then Undefined else values[0];
      map[params[0] := Some(v)] + Bind(params[1..], if values == [] then [] else values[1..])
  }

  /** The helper's frame when its body starts: parameters bound, tail locals not yet. */
  function Frame(h: Helper, values: seq<Value>): Locals {
    Enter(Bind(h.params, values), Declared(h.tail))
  }

  /** The body, in the helper's own scope: nothing of the caller is visible. */
  function RunHelper(host: Host, h: Helper, values: seq<Value>, w: World): (Completion, World) {
    var (o, s1) := RunGuards(host, h.guards, map[], {}, State(w, Frame(h, values)));
    match o
    case Threw(e) => (Some(e), s1.world)
    case Stopped => (None, s1.world)
    case Passed =>
      var (r, s2) := ExecAll(host, h.tail, {}, s1);
      (r, s2.world)
  }

  /** `helper(args);` */
  function ExecCall(host: Host, h: Helper, args: Exprs, c: set<string>, st: State): (Completion, State) {
    var (vs, s1) := EvalArgs(host, args, c, st);
    if vs.Err? then (Some(vs.error), s1)
    else
      var (r, w) := RunHelper(host, h, vs.value, s1.world);
      (r, s1.(world := w))
  }

  /** A block with the calls of the helper in it, nested blocks included. */
  datatype Items =
    | INil
    | IPlain(s: Stmt, rest: Items)
    | ISite(args: Exprs, rest: Items)
    | INest(body: Items, rest: Items)
    | IBranch(cond: Expr, then_: Items, else_: Items, rest: Items)

  /** The names declared in the block itself. */
  function DeclaredItems(items: Items): set<string> {
    match items
    case INil => {}
    case IPlain(Decl(x, _), rest) => {x} + DeclaredItems(rest)
    case IPlain(_, rest) => DeclaredItems(rest)
    case ISite(_, rest) => DeclaredItems(rest)
    case INest(_, rest) => DeclaredItems(rest)
    case IBranch(_, _, _, rest) => DeclaredItems(rest)
  }

  /** The names declared in the block and in the nested blocks that hold call sites. */
  function DeclaredWithin(items: Items): set<string> {
    match items
    case INil => {}
    case IPlain(Decl(x, _), rest) => {x} + DeclaredWithin(rest)
    case IPlain(_, rest) => DeclaredWithin(rest)
    case ISite(_, rest) => DeclaredWithin(rest)
    case INest(b, rest) => DeclaredWithin(b) + DeclaredWithin(rest)
    case IBranch(_, t, f, rest) => DeclaredWithin(t) + DeclaredWithin(f) + DeclaredWithin(rest)
  }

  /** Every identifier of the block: what `reservedFor` seeds its set with. */
  function MentionsItems(h: Helper, items: Items): set<string> {
    match items
    case INil => {}
    case IPlain(s, rest) => LevelStmt(s) + NestedStmt(s) + InnerStmt(s) + MentionsItems(h, rest)
    case ISite(args, rest) => {h.name} + FreeArgs(args) + MentionsItems(h, rest)
    case INest(b, rest) => MentionsItems(h, b) + MentionsItems(h, rest)
    case IBranch(e, t, f, rest) => Free(e) + MentionsItems(h, t) + MentionsItems(h, f) + MentionsItems(h, rest)
  }

  function ExecItems(host: Host, h: Helper, items: Items, c: set<string>, st: State): (Completion, State)
    decreases items, 0
  {
    match items
    case INil => (None, st)
    case IPlain(s, rest) =>
      var (r, s1) := Exec(host, s, c, st);
      if r.Some? then (r, s1) else ExecItems(host, h, rest, c, s1)
    case ISite(args, rest) =>
      var (r, s1) := ExecCall(host, h, args, c, st);
      if r.Some? then (r, s1) else ExecItems(host, h, rest, c, s1)
    case INest(b, rest) =>
      var (r, s1) := ExecItemBlock(host, h, b, c, st);
      if r.Some? then (r, s1) else ExecItems(host, h, rest, c, s1)
    case IBranch(e, t, f, rest) =>
      var (a, s1) := Eval(host, e, c, st);
      if a.Throws? then (Some(a.error), s1)
      else
        var (r, s2) := if Truthy(a.value) then ExecItemBlock(host, h, t, c, s1) else ExecItemBlock(host, h, f, c, s1);
        if r.Some? then (r, s2) else ExecItems(host, h, rest, c, s2)
  }

  function ExecItemBlock(host: Host, h: Helper, items: Items, c: set<string>, st: State): (Completion, State)
    decreases items, 1
  {
    var (r, s1) := ExecItems(host, h, items, c, st.(locals := Enter(st.locals, DeclaredItems(items))));
    (r, s1.(locals := Leave(s1.locals, st.locals, DeclaredItems(items))))
  }

  /** `inlineCandidate`: every call site replaced, the sites of one block sharing its set of
      taken names. */
  function InlineItems(h: Helper, items: Items, reserved: set<string>): Option<(Stmts, set<string>)>
    decreases items, 0
  {
    match items
    case INil => Some((SNil, reserved))
    case IPlain(s, rest) =>
      var r := InlineItems(h, rest, reserved);
      if r.None? then None else Some((SCons(s, r.value.0), r.value.1))
    case ISite(args, rest) =>
      var plan := PlanSite(h, args, reserved, true);
      var here := Inserted(plan);
      var r := InlineItems(h, rest, plan.reserved);
      if here.None? || r.None? then None else Some((Append(here.value, r.value.0), r.value.1))
    case INest(b, rest) =>
      var inner := InlineBlock(h, b);
      var r := InlineItems(h, rest, reserved);
      if inner.None? || r.None? then None else Some((SCons(Block(inner.value), r.value.0), r.value.1))
    case IBranch(e, t, f, rest) =>
      var yes, no := InlineBlock(h, t), InlineBlock(h, f);
      var r := InlineItems(h, rest, reserved);
      if yes.None? || no.None? || r.None? then None
      else Some((SCons(If(e, yes.value, no.value), r.value.0), r.value.1))
  }

  function InlineBlock(h: Helper, items: Items): Option<Stmts>
    decreases items, 1
  {
    var r := InlineItems(h, items, MentionsItems(h, items));
    if r.None? then None else Some(r.value.0)
  }

  // ------------------------------------------------------------- hypotheses

  function GuardNames(guards: seq<Expr>): set<string> {
    if guards == [] then {} else GuardNames(guards[..|guards| - 1]) + Free(guards[|guards| - 1])
  }

  function GuardWrites(guards: seq<Expr>): set<string> {
    if guards == [] then {} else GuardWrites(guards[..|guards| - 1]) + Writes(guards[|guards| - 1])
  }

  function ParamSet(h: Helper): set<string> {
    set p | p in h.params
  }

  predicate DistinctDecls(ss: Stmts) {
    match ss
    case SNil => true
    case SCons(Decl(x, _), rest) => x !in Declared(rest) && DistinctDecls(rest)
    case SCons(_, rest) => DistinctDecls(rest)
  }

  /** What `analyze` and the TypeScript compiler guarantee of a helper: distinct parameters
      that are never written, tail locals distinct from each other and from the parameters
      and not read by the guards, and guards as a parser builds them. */
  ghost predicate Analyzed(h: Helper) {
    && (forall i, j :: 0 <= i < j < |h.params| ==> h.params[i] != h.params[j])
    && (GuardWrites(h.guards) + WritesLevel(h.tail)) !! ParamSet(h)
    && DistinctDecls(h.tail) && Declared(h.tail) !! ParamSet(h) && Declared(h.tail) !! GuardNames(h.guards)
    && (forall i :: 0 <= i < |h.guards| ==> WellFormed(h.guards[i], 0))
  }

  function ArgCount(args: Exprs): nat {
    match args
    case ENil => 0
    case ECons(_, rest) => 1 + ArgCount(rest)
  }

  /** No call passes more arguments than there are parameters. */
  predicate ArityOk(h: Helper, items: Items) {
    match items
    case INil => true
    case IPlain(_, rest) => ArityOk(h, rest)
    case ISite(args, rest) => ArgCount(args) <= |h.params| && ArityOk(h, rest)
    case INest(b, rest) => ArityOk(h, b) && ArityOk(h, rest)
    case IBranch(_, t, f, rest) => ArityOk(h, t) && ArityOk(h, f) && ArityOk(h, rest)
  }

  /** The names of the body that are bound outside the helper. */
  function FreeNames(h: Helper): set<string> {
    GuardNames(h.guards) + Level(h.tail) - ParamSet(h) - Declared(h.tail)
  }

  function Images(th: Subst): set<string> {
    set x | x in th && th[x].Var? :: th[x].x
  }

  /** The new variables of a site meet no free name of the helper, and no block of the tail
      that uses a parameter declares the variable that replaces it. */
  predicate SiteClear(h: Helper, plan: Replacement) {
    && Images(plan.th) !! FreeNames(h)
    && if h.guards != [] then CaptureFreeBlock(h.tail, plan.th) else CaptureFreeAll(h.tail, plan.th)
  }

  /** So for every site. */
  predicate SitesClear(h: Helper, items: Items, reserved: set<string>)
    decreases items, 0
  {
    match items
    case INil => true
    case IPlain(_, rest) => SitesClear(h, rest, reserved)
    case ISite(args, rest) =>
      var plan := PlanSite(h, args, reserved, true);
      SiteClear(h, plan) && SitesClear(h, rest, plan.reserved)
    case INest(b, rest) => BlockClear(h, b) && SitesClear(h, rest, reserved)
    case IBranch(_, t, f, rest) => BlockClear(h, t) && BlockClear(h, f) && SitesClear(h, rest, reserved)
  }

  predicate BlockClear(h: Helper, items: Items)
    decreases items, 1
  {
    SitesClear(h, items, MentionsItems(h, items))
  }

  /** At every call the block makes, the order comparisons that inversion flips are between
      ordered operands. */
  predicate CallsOrdered(host: Host, h: Helper, items: Items, c: set<string>, st: State)
    decreases items, 0
  {
    match items
    case INil => true
    case IPlain(s, rest) =>
      var (r, s1) := Exec(host, s, c, st);
      r.None? ==> CallsOrdered(host, h, rest, c, s1)
    case ISite(args, rest) =>
      && CallOrdered(host, h, args, c, st)
      && var (r, s1) := ExecCall(host, h, args, c, st);
         r.None? ==> CallsOrdered(host, h, rest, c, s1)
    case INest(b, rest) =>
      && BlockOrdered(host, h, b, c, st)
      && var (r, s1) := ExecItemBlock(host, h, b, c, st);
         r.None? ==> CallsOrdered(host, h, rest, c, s1)
    case IBranch(e, t, f, rest) =>
      var (a, s1) := Eval(host, e, c, st);
      a.Yields? ==>
        && (if Truthy(a.value) then BlockOrdered(host, h, t, c, s1) else BlockOrdered(host, h, f, c, s1))
        && var (r, s2) := if Truthy(a.value) then ExecItemBlock(host, h, t, c, s1) else ExecItemBlock(host, h, f, c, s1);
           r.None? ==> CallsOrdered(host, h, rest, c, s2)
  }

  predicate BlockOrdered(host: Host, h: Helper, items: Items, c: set<string>, st: State)
    decreases items, 1
  {
    CallsOrdered(host, h, items, c, st.(locals := Enter(st.locals, DeclaredItems(items))))
  }

  predicate CallOrdered(host: Host, h: Helper, args: Exprs, c: set<string>, st: State) {
    var (vs, s1) := EvalArgs(host, args, c, st);
    vs.Ok? ==> GuardsOrdered(host, h.guards, map[], {}, State(s1.world, Frame(h, vs.value)))
  }

  // -------------------------------------------- scopes that differ in new names

  /** The two scopes agree on every name that is not in `ks`. */
  ghost predicate AgreeOutside(f: Locals, l: Locals, ks: set<string>) {
    forall x :: x !in ks ==> (x in f <==> x in l) && (x in f ==> f[x] == l[x])
  }

  lemma AgreeRelated(host: Host, f: Locals, l: Locals, ks: set<string>, c: set<string>, ns: set<string>)
    requires AgreeOutside(f, l, ks) && ks !! ns
    ensures Related(host, f, l, c, c, map[], ns, ns)
  {
    forall x | x in ns ensures Stands(host, f, l, map[], x) || OutsideBoth(f, l, c, c, map[], x) {
      assert x !in ks;
    }
  }

  lemma SimulatesAgree(host: Host, f: Locals, l: Locals, f1: State, l1: State, ks: set<string>, c: set<string>, ns: set<string>)
    requires AgreeOutside(f, l, ks) && ks !! ns && Simulates(host, f, l, f1, l1, c, c, map[], ns, ns)
    ensures AgreeOutside(f1.locals, l1.locals, ks)
    ensures forall y :: y in ks && y in l ==> l1.locals[y] == l[y]
  {
    forall x | x !in ks ensures (x in f1.locals <==> x in l1.locals) && (x in f1.locals ==> f1.locals[x] == l1.locals[x]) {
      if x in ns {
        assert Stands(host, f1.locals, l1.locals, map[], x) || OutsideBoth(f1.locals, l1.locals, c, c, map[], x);
      } else {
        assert Untouched(x, map[], ns);
      }
    }
    forall y | y in ks && y in l ensures l1.locals[y] == l[y] {
      assert Untouched(y, map[], ns);
    }
  }

  lemma {:induction false} ApplyNothing(e: Expr)
    ensures Apply(e, map[]) == e
  {
    match e
    case Assign(_, e1) => ApplyNothing(e1);
    case Call(f, args) => ApplyNothing(f); ApplyNothingArgs(args);
    case Member(o, _) => ApplyNothing(o);
    case Not(e1) => ApplyNothing(e1);
    case Bin(_, l, r) => ApplyNothing(l); ApplyNothing(r);
    case Paren(e1) => ApplyNothing(e1);
    case _ =>
  }

  lemma {:induction false} ApplyNothingArgs(es: Exprs)
    ensures ApplyArgs(es, map[]) == es
  {
    match es
    case ENil =>
    case ECons(e, rest) => ApplyNothing(e); ApplyNothingArgs(rest);
  }

  lemma {:induction false} ApplyNothingAll(ss: Stmts)
    ensures ApplyAll(ss, map[]) == ss
    decreases ss, 0
  {
    match ss
    case SNil =>
    case SCons(s, rest) => ApplyNothingStmt(s); ApplyNothingAll(rest);
  }

  lemma {:induction false} ApplyNothingStmt(s: Stmt)
    ensures ApplyStmt(s, map[]) == s
    decreases s, 0
  {
    match s
    case Decl(_, e) => ApplyNothing(e);
    case Do(e) => ApplyNothing(e);
    case If(e, t, f) => ApplyNothing(e); ApplyNothingBlock(t); ApplyNothingBlock(f);
    case Block(b) => ApplyNothingBlock(b);
  }

  lemma {:induction false} ApplyNothingBlock(ss: Stmts)
    ensures ApplyBlock(ss, map[]) == ss
    decreases ss, 1
  {
    var none: Subst := map[];
    assert none - Declared(ss) == none;
    ApplyNothingAll(ss);
  }

  lemma {:induction false} NothingCaptures(ss: Stmts)
    ensures CaptureFreeAll(ss, map[])
    decreases ss, 0
  {
    match ss
    case SNil =>
    case SCons(s, rest) => NothingCapturesStmt(s); NothingCaptures(rest);
  }

  lemma {:induction false} NothingCapturesStmt(s: Stmt)
    ensures CaptureFreeStmt(s, map[])
    decreases s, 0
  {
    var none: Subst := map[];
    match s
    case If(_, t, f) =>
      assert none - Declared(t) == none && none - Declared(f) == none;
      NothingCaptures(t); NothingCaptures(f);
    case Block(b) => assert none - Declared(b) == none; NothingCaptures(b);
    case _ =>
  }

  /** An expression that mentions no new name evaluates alike in both scopes. */
  lemma WeakenExpr(host: Host, e: Expr, c: set<string>, sf: State, sl: State, ks: set<string>)
    requires sf.world == sl.world && AgreeOutside(sf.locals, sl.locals, ks) && ks !! Free(e)
    ensures var (a, f1) := Eval(host, e, c, sf);
            var (b, l1) := Eval(host, e, c, sl);
            a == b && WeakStep(sf, sl, f1, l1, ks)
  {
    AgreeRelated(host, sf.locals, sl.locals, ks, c, Free(e));
    ApplyNothing(e);
    ExprWritesAreFree(e);
    SimulateExpr(host, e, map[], Free(e), Free(e), c, c, sf, sl);
    SimulatesAgree(host, sf.locals, sl.locals, Eval(host, e, c, sf).1, Eval(host, e, c, sl).1, ks, c, Free(e));
  }

  /** Both sides moved alike, and no new name changed. */
  ghost predicate WeakStep(sf: State, sl: State, f1: State, l1: State, ks: set<string>) {
    && f1.world == l1.world && f1.locals.Keys == sf.locals.Keys && l1.locals.Keys == sl.locals.Keys
    && AgreeOutside(f1.locals, l1.locals, ks)
    && (forall y :: y in ks && y in sf.locals ==> f1.locals[y] == sf.locals[y])
    && (forall y :: y in ks && y in sl.locals ==> l1.locals[y] == sl.locals[y])
  }

  lemma WeakenStmt(host: Host, s: Stmt, c: set<string>, sf: State, sl: State, ks: set<string>)
    requires sf.world == sl.world && AgreeOutside(sf.locals, sl.locals, ks) && ks !! LevelStmt(s)
    requires s.Decl? ==> s.x in sf.locals
    ensures var (a, f1) := Exec(host, s, c, sf);
            var (b, l1) := Exec(host, s, c, sl);
            a == b && WeakStep(sf, sl, f1, l1, ks)
  {
    AgreeRelated(host, sf.locals, sl.locals, ks, c, LevelStmt(s));
    ApplyNothingStmt(s);
    StmtWritesAreFree(s);
    NothingCapturesStmt(s);
    SimulateStmt(host, s, map[], LevelStmt(s), LevelStmt(s), c, c, sf, sl);
    SimulatesAgree(host, sf.locals, sl.locals, Exec(host, s, c, sf).1, Exec(host, s, c, sl).1, ks, c, LevelStmt(s));
  }

  // ------------------------------------------------------- what a plan promises

  lemma {:induction false} CountFree(x: string, e: Expr)
    ensures Count(x, e) > 0 <==> x in Free(e)
  {
    match e
    case Assign(_, e1) => CountFree(x, e1);
    case Call(f, args) => CountFree(x, f); CountFreeArgs(x, args);
    case Member(o, _) => CountFree(x, o);
    case Not(e1) => CountFree(x, e1);
    case Bin(_, l, r) => CountFree(x, l); CountFree(x, r);
    case Paren(e1) => CountFree(x, e1);
    case _ =>
  }

  lemma {:induction false} CountFreeArgs(x: string, es: Exprs)
    ensures CountArgs(x, es) > 0 <==> x in FreeArgs(es)
  {
    match es
    case ENil =>
    case ECons(e, rest) => CountFree(x, e); CountFreeArgs(x, rest);
  }

  lemma {:induction false} CountLevel(x: string, ss: Stmts)
    ensures CountAll(x, ss) > 0 <==> x in Level(ss)
    decreases ss, 0
  {
    match ss
    case SNil =>
    case SCons(s, rest) => CountLevelStmt(x, s); CountLevel(x, rest);
  }

  lemma {:induction false} CountLevelStmt(x: string, s: Stmt)
    ensures CountStmt(x, s) > 0 <==> x in LevelStmt(s)
    decreases s, 0
  {
    match s
    case Decl(_, e) => CountFree(x, e);
    case Do(e) => CountFree(x, e);
    case If(e, t, f) => CountFree(x, e); CountLevel(x, t); CountLevel(x, f);
    case Block(b) => CountLevel(x, b);
  }

  lemma {:induction false} CountGuards(x: string, guards: seq<Expr>)
    ensures GuardUses(x, guards) > 0 <==> x in GuardNames(guards)
  {
    if guards != [] {
      CountGuards(x, guards[..|guards| - 1]);
      CountFree(x, guards[|guards| - 1]);
    }
  }

  /** A parameter has uses exactly when the body mentions it freely. */
  lemma UsesAreNames(x: string, h: Helper)
    ensures Uses(x, h) > 0 <==> x in GuardNames(h.guards) || x in FreeBlock(h.tail)
  {
    CountGuards(x, h.guards);
    CountLevel(x, h.tail);
  }

  ghost predicate DistinctImages(th: Subst) {
    forall x, y :: x in th && y in th && x != y && th[x].Var? ==> th[x] != th[y]
  }

  lemma ImagesOfUnion(a: Subst, b: Subst)
    requires a.Keys !! b.Keys
    ensures Images(a + b) == Images(a) + Images(b)
  {
    var u := a + b;
    forall y | y in Images(a) ensures y in Images(u) {
      var x :| x in a && a[x].Var? && a[x].x == y;
      assert x in u && u[x] == a[x];
    }
    forall y | y in Images(b) ensures y in Images(u) {
      var x :| x in b && b[x].Var? && b[x].x == y;
      assert x in u && u[x] == b[x];
    }
  }

  /** In strict mode: one new temporary per used parameter that has an argument. */
  ghost predicate StrictPlan(h: Helper, params: seq<string>, reserved: set<string>, plan: ArgPlan) {
    && (forall x :: x in plan.th <==> x in params && Uses(x, h) > 0)
    && (forall x :: x in plan.th ==> plan.th[x].Var? || plan.th[x] == Lit(Undefined))
    && DistinctImages(plan.th)
    && Images(plan.th) !! reserved
    && plan.reserved == reserved + Images(plan.th)
    && Declared(plan.prefix) == Images(plan.th)
  }

  lemma {:induction false} StrictPlanFacts(h: Helper, params: seq<string>, args: Exprs, reserved: set<string>)
    requires forall i, j :: 0 <= i < j < |params| ==> params[i] != params[j]
    ensures StrictPlan(h, params, reserved, PlanArgs(h, params, args, reserved, true))
    decreases |params|
  {
    if params != [] {
      assert params == [params[0]] + params[1..];
      if args.ECons? && Uses(params[0], h) > 0 {
        hide StrictPlan, Uses;
        var temp := Fresh(TempBase(params[0]), reserved);
        var rest := PlanArgs(h, params[1..], args.tail, reserved + {temp}, true);
        StrictPlanFacts(h, params[1..], args.tail, reserved + {temp});
        StrictPlanCons(h, params, reserved, Var(temp), SCons(Decl(temp, args.head), rest.prefix), rest);
      } else {
        var more := if args.ENil? then ENil else args.tail;
        StrictPlanFacts(h, params[1..], more, reserved);
        StrictPlanNoTemp(h, params, args, reserved, PlanArgs(h, params[1..], more, reserved, true));
      }
    }
  }

  lemma StrictPlanNoTemp(h: Helper, params: seq<string>, args: Exprs, reserved: set<string>, rest: ArgPlan)
    requires params != [] && params[0] !in params[1..] && (args.ENil? || Uses(params[0], h) == 0)
    requires rest == PlanArgs(h, params[1..], if args.ENil? then ENil else args.tail, reserved, true)
    requires StrictPlan(h, params[1..], reserved, rest)
    ensures StrictPlan(h, params, reserved, PlanArgs(h, params, args, reserved, true))
  {
    assert params == [params[0]] + params[1..];
    hide Uses;
    if Uses(params[0], h) > 0 {
      StrictPlanCons(h, params, reserved, Lit(Undefined), rest.prefix, rest);
    }
  }

  lemma StrictPlanCons(h: Helper, params: seq<string>, reserved: set<string>, image: Expr, prefix: Stmts, rest: ArgPlan)
    requires params != [] && params[0] !in params[1..] && Uses(params[0], h) > 0
    requires image == Lit(Undefined) || (image.Var? && image.x !in reserved)
    requires StrictPlan(h, params[1..], if image.Var? then reserved + {image.x} else reserved, rest)
    requires Declared(prefix) == Declared(rest.prefix) + if image.Var? then {image.x} else {}
    ensures StrictPlan(h, params, reserved, ArgPlan(prefix, map[params[0] := image] + rest.th, rest.reserved))
  {
    hide Uses, DistinctImages, Images;
    var p := params[0];
    assert params == [p] + params[1..];
    ConsImages(p, image, rest.th);
  }

  lemma ConsImages(p: string, image: Expr, rest: Subst)
    requires p !in rest && DistinctImages(rest) && (image.Var? ==> image.x !in Images(rest)) && (image.Var? || image.Lit?)
    ensures DistinctImages(map[p := image] + rest)
    ensures Images(map[p := image] + rest) == Images(rest) + if image.Var? then {image.x} else {}
  {
    var one: Subst := map[p := image];
    ImagesOfUnion(one, rest);
    assert Images(one) == if image.Var? then {image.x} else {};
    var th := one + rest;
    forall x, y | x in th && y in th && x != y && th[x].Var? ensures th[x] != th[y] {
      if x == p {
        assert th[y].Var? ==> th[y].x in Images(rest);
      } else if y == p {
        assert th[x].x in Images(rest);
      }
    }
  }

  /** New names for the tail locals that collide, all locals taken afterwards. */
  ghost predicate LocalsPlan(tail: Stmts, taken: set<string>, th: Subst, after: set<string>) {
    && th.Keys <= Declared(tail)
    && (forall x :: x in th ==> th[x].Var?)
    && (forall x :: x in Declared(tail) && x !in th ==> x !in taken)
    && DistinctImages(th)
    && Images(th) !! taken
    && after == taken + Images(th) + (Declared(tail) - th.Keys)
    && Images(th) !! (Declared(tail) - th.Keys)
  }

  lemma {:induction false} LocalsPlanFacts(tail: Stmts, taken: set<string>)
    requires DistinctDecls(tail)
    ensures var (th, after) := PlanLocals(tail, taken); LocalsPlan(tail, taken, th, after)
  {
    match tail
    case SNil =>
    case SCons(Decl(x, _), rest) =>
      if x !in taken {
        LocalsPlanFacts(rest, taken + {x});
      } else {
        var renamed := Fresh(x, taken);
        LocalsPlanFacts(rest, taken + {renamed});
        var (th, after) := PlanLocals(rest, taken + {renamed});
        LocalsPlanCons(x, renamed, tail, taken, th, after);
      }
    case SCons(_, rest) => LocalsPlanFacts(rest, taken);
  }

  lemma LocalsPlanCons(x: string, renamed: string, tail: Stmts, taken: set<string>, th: Subst, after: set<string>)
    requires tail.SCons? && tail.first.Decl? && tail.first.x == x && x !in Declared(tail.rest)
    requires renamed !in taken && LocalsPlan(tail.rest, taken + {renamed}, th, after)
    ensures LocalsPlan(tail, taken, map[x := Var(renamed)] + th, after)
  {
    var one: Subst := map[x := Var(renamed)];
    ImagesOfUnion(one, th);
    assert Images(one) == {renamed};
    var all := one + th;
    assert Declared(tail) - all.Keys == Declared(tail.rest) - th.Keys;
    forall y, z | y in all && z in all && y != z && all[y].Var? ensures all[y] != all[z] {
      if y == x {
        assert all[z].x in Images(th);
      } else if z == x {
        assert all[y].x in Images(th);
      }
    }
  }

  // ------------------------------------------------------ the hoisted prefix

  predicate CarriedAt(host: Host, th: Subst, bound: Locals, l: Locals, p: string)
    requires p in th
  {
    && p in bound
    && if th[p].Var? then th[p].x in l && l[th[p].x] == bound[p] else Fixed(host, th[p], l, bound[p])
  }

  /** Each parameter's replacement holds, in `l`, the value the parameter is bound to. */
  ghost predicate Carried(host: Host, th: Subst, bound: Locals, l: Locals) {
    forall p :: p in th ==> CarriedAt(host, th, bound, l, p)
  }

  /** The prefix did what evaluating the arguments does. */
  ghost predicate PrefixDone(host: Host, params: seq<string>, th: Subst, ks: set<string>, sf: State, sl: State,
                             vs: Result<seq<Value>, Value>, f1: State, r: Completion, l1: State)
  {
    && f1.world == l1.world && f1.locals.Keys == sf.locals.Keys && l1.locals.Keys == sl.locals.Keys
    && AgreeOutside(f1.locals, l1.locals, ks)
    && (forall y :: y in ks && y in sf.locals ==> f1.locals[y] == sf.locals[y])
    && (forall y :: y in ks && y in sl.locals && y !in Images(th) ==> l1.locals[y] == sl.locals[y])
    && r == (if vs.Err? then Some(vs.error) else None)
    && (vs.Ok? ==> Carried(host, th, Bind(params, vs.value), l1.locals))
  }

  lemma {:induction false} EvalLiteral(host: Host, e: Expr, c: set<string>, s: State)
    requires Unwrap(e).Lit?
    ensures Eval(host, e, c, s) == (Yields(Unwrap(e).value), s)
  {
    match e
    case Paren(e1) => EvalLiteral(host, e1, c, s);
    case _ =>
  }

  lemma {:induction false} BindKeys(params: seq<string>, values: seq<Value>)
    ensures forall x :: x in Bind(params, values) <==> x in params
  {
    if params != [] {
      assert params == [params[0]] + params[1..];
      BindKeys(params[1..], if values == [] then [] else values[1..]);
    }
  }

  lemma {:induction false} BindMissing(params: seq<string>)
    ensures forall p :: p in params ==> p in Bind(params, []) && Bind(params, [])[p] == Some(Undefined)
  {
    if params != [] {
      assert params == [params[0]] + params[1..];
      BindMissing(params[1..]);
      BindKeys(params[1..], []);
    }
  }

  lemma {:induction false} NoArgsPlan(h: Helper, params: seq<string>, reserved: set<string>)
    ensures var plan := PlanArgs(h, params, ENil, reserved, true);
            plan.prefix == SNil && forall p :: p in plan.th ==> p in params && plan.th[p] == Lit(Undefined)
  {
    hide Uses;
    if params != [] {
      assert params == [params[0]] + params[1..];
      NoArgsPlan(h, params[1..], reserved);
    }
  }

  lemma NoArgsLeft(host: Host, h: Helper, params: seq<string>, reserved: set<string>, sf: State, sl: State, ks: set<string>)
    requires forall i, j :: 0 <= i < j < |params| ==> params[i] != params[j]
    requires sf.world == sl.world && AgreeOutside(sf.locals, sl.locals, ks)
    ensures var plan := PlanArgs(h, params, ENil, reserved, true);
            plan.prefix == SNil && PrefixDone(host, params, plan.th, ks, sf, sl, Ok([]), sf, None, sl)
  {
    NoArgsPlan(h, params, reserved);
    BindMissing(params);
    hide PlanArgs, Bind;
  }

  lemma {:induction false} PrefixRuns(host: Host, h: Helper, params: seq<string>, args: Exprs, reserved: set<string>,
                                      sf: State, sl: State, ks: set<string>, c: set<string>)
    requires forall i, j :: 0 <= i < j < |params| ==> params[i] != params[j]
    requires ArgCount(args) <= |params| && ks !! FreeArgs(args)
    requires sf.world == sl.world && AgreeOutside(sf.locals, sl.locals, ks)
    requires Images(PlanArgs(h, params, args, reserved, true).th) <= ks * sl.locals.Keys
    ensures var plan := PlanArgs(h, params, args, reserved, true);
            var (vs, f1) := EvalArgs(host, args, c, sf);
            var (r, l1) := ExecAll(host, plan.prefix, c, sl);
            PrefixDone(host, params, plan.th, ks, sf, sl, vs, f1, r, l1)
    decreases |params|
  {
    match args
    case ENil => NoArgsLeft(host, h, params, reserved, sf, sl, ks);
    case ECons(a, more) =>
      assert params == [params[0]] + params[1..];
      WeakenExpr(host, a, c, sf, sl, ks);
      if Uses(params[0], h) > 0 {
        PrefixHoist(host, h, params, a, more, reserved, sf, sl, ks, c);
      } else {
        PrefixUnused(host, h, params, a, more, reserved, sf, sl, ks, c);
      }
  }

  lemma {:induction false} PrefixUnused(host: Host, h: Helper, params: seq<string>, a: Expr, more: Exprs, reserved: set<string>,
                                        sf: State, sl: State, ks: set<string>, c: set<string>)
    requires forall i, j :: 0 <= i < j < |params| ==> params[i] != params[j]
    requires params != [] && Uses(params[0], h) == 0
    requires ArgCount(more) < |params| && ks !! Free(a) + FreeArgs(more)
    requires sf.world == sl.world && AgreeOutside(sf.locals, sl.locals, ks)
    requires Images(PlanArgs(h, params, ECons(a, more), reserved, true).th) <= ks * sl.locals.Keys
    ensures var plan := PlanArgs(h, params, ECons(a, more), reserved, true);
            var (vs, f1) := EvalArgs(host, ECons(a, more), c, sf);
            var (r, l1) := ExecAll(host, plan.prefix, c, sl);
            PrefixDone(host, params, plan.th, ks, sf, sl, vs, f1, r, l1)
    decreases |params|, 0
  {
    hide Uses, Images, FreeArgs, Free;
    var rest := PlanArgs(h, params[1..], more, reserved, true);
    WeakenExpr(host, a, c, sf, sl, ks);
    var (x, f1) := Eval(host, a, c, sf);
    var (y, l1) := Eval(host, a, c, sl);
    if !EvaluatedUnused(a, true) { EvalLiteral(host, a, c, sf); EvalLiteral(host, a, c, sl); }
    if x.Yields? {
      PrefixRuns(host, h, params[1..], more, reserved, f1, l1, ks, c);
      StrictPlanFacts(h, params[1..], more, reserved);
      var (vs, f2) := EvalArgs(host, more, c, f1);
      if vs.Ok? {
        UnusedCarried(host, params, x.value, vs.value, rest.th, ExecAll(host, rest.prefix, c, l1).1.locals);
      }
    }
  }

  lemma UnusedCarried(host: Host, params: seq<string>, v: Value, vs: seq<Value>, rest: Subst, l: Locals)
    requires params != [] && Carried(host, rest, Bind(params[1..], vs), l)
    ensures Carried(host, rest, Bind(params, [v] + vs), l)
  {
    assert ([v] + vs)[1..] == vs;
    forall p | p in rest ensures CarriedAt(host, rest, Bind(params, [v] + vs), l, p) {
      assert CarriedAt(host, rest, Bind(params[1..], vs), l, p);
    }
  }

  lemma {:induction false} PrefixHoist(host: Host, h: Helper, params: seq<string>, a: Expr, more: Exprs, reserved: set<string>,
                                       sf: State, sl: State, ks: set<string>, c: set<string>)
    requires forall i, j :: 0 <= i < j < |params| ==> params[i] != params[j]
    requires params != [] && Uses(params[0], h) > 0
    requires ArgCount(more) < |params| && ks !! Free(a) + FreeArgs(more)
    requires sf.world == sl.world && AgreeOutside(sf.locals, sl.locals, ks)
    requires Images(PlanArgs(h, params, ECons(a, more), reserved, true).th) <= ks * sl.locals.Keys
    ensures var plan := PlanArgs(h, params, ECons(a, more), reserved, true);
            var (vs, f1) := EvalArgs(host, ECons(a, more), c, sf);
            var (r, l1) := ExecAll(host, plan.prefix, c, sl);
            PrefixDone(host, params, plan.th, ks, sf, sl, vs, f1, r, l1)
    decreases |params|, 0
  {
    hide StrictPlan, Uses, PrefixDone, WeakStep, AgreeOutside, Images, Fresh, Eval;
    var temp := Fresh(TempBase(params[0]), reserved);
    var one: Subst := map[params[0] := Var(temp)];
    var rest := PlanArgs(h, params[1..], more, reserved + {temp}, true);
    StrictPlanFacts(h, params[1..], more, reserved + {temp});
    HoistImages(h, params, temp, reserved, rest);
    WeakenExpr(host, a, c, sf, sl, ks);
    var (x, f1) := Eval(host, a, c, sf);
    var (y, l0) := Eval(host, a, c, sl);
    if x.Yields? {
      var l1 := l0.(locals := l0.locals[temp := Some(x.value)]);
      HoistState(sf, sl, f1, l0, ks, temp, x.value);
      PrefixRuns(host, h, params[1..], more, reserved + {temp}, f1, l1, ks, c);
      var (vs, f2) := EvalArgs(host, more, c, f1);
      var (r, l2) := ExecAll(host, rest.prefix, c, l1);
      HoistDone(host, params, temp, x.value, rest.th, ks, sf, sl, f1, l0, vs, f2, r, l2);
    } else {
      HoistThrows(host, params, one + rest.th, ks, sf, sl, x.error, f1, l0);
    }
  }

  lemma HoistState(sf: State, sl: State, f1: State, l0: State, ks: set<string>, temp: string, v: Value)
    requires WeakStep(sf, sl, f1, l0, ks) && temp in ks && temp in sl.locals
    ensures var l1 := l0.(locals := l0.locals[temp := Some(v)]);
            f1.world == l1.world && AgreeOutside(f1.locals, l1.locals, ks) && l1.locals.Keys == sl.locals.Keys
  {}

  lemma HoistImages(h: Helper, params: seq<string>, temp: string, reserved: set<string>, rest: ArgPlan)
    requires params != [] && params[0] !in params[1..]
    requires StrictPlan(h, params[1..], reserved + {temp}, rest)
    ensures Images(map[params[0] := Var(temp)] + rest.th) == {temp} + Images(rest.th)
    ensures temp !in Images(rest.th) && params[0] !in rest.th
    ensures forall p :: p in rest.th ==> p in params[1..]
  {
    var one: Subst := map[params[0] := Var(temp)];
    ImagesOfUnion(one, rest.th);
    assert Images(one) == {temp};
  }

  lemma HoistThrows(host: Host, params: seq<string>, th: Subst, ks: set<string>, sf: State, sl: State, error: Value, f1: State, l1: State)
    requires WeakStep(sf, sl, f1, l1, ks)
    ensures PrefixDone(host, params, th, ks, sf, sl, Err(error), f1, Some(error), l1)
  {}

  lemma HoistDone(host: Host, params: seq<string>, temp: string, v: Value, rest: Subst, ks: set<string>, sf: State, sl: State,
                  f1: State, l0: State, vs: Result<seq<Value>, Value>, f2: State, r: Completion, l2: State)
    requires params != [] && params[0] !in params[1..] && params[0] !in rest && temp !in Images(rest)
    requires temp in ks && temp in sl.locals && WeakStep(sf, sl, f1, l0, ks)
    requires PrefixDone(host, params[1..], rest, ks, f1, l0.(locals := l0.locals[temp := Some(v)]), vs, f2, r, l2)
    requires Images(map[params[0] := Var(temp)] + rest) == {temp} + Images(rest)
    ensures PrefixDone(host, params, map[params[0] := Var(temp)] + rest, ks, sf, sl,
                       if vs.Ok? then Ok([v] + vs.value) else vs, f2, r, l2)
  {
    if vs.Ok? {
      BindKeys(params[1..], vs.value);
      assert ([v] + vs.value)[1..] == vs.value;
      var bound := Bind(params, [v] + vs.value);
      var th: Subst := map[params[0] := Var(temp)] + rest;
      forall p | p in th ensures CarriedAt(host, th, bound, l2.locals, p) {
        if p != params[0] { assert CarriedAt(host, rest, Bind(params[1..], vs.value), l2.locals, p); }
      }
    }
  }

  // -------------------------------------------------- the body, in two scopes

  lemma {:induction false} SimulateGuards(host: Host, guards: seq<Expr>, th: Subst, ns: set<string>, ws: set<string>, cf: set<string>, cl: set<string>, sf: State, sl: State)
    requires sf.world == sl.world && Related(host, sf.locals, sl.locals, cf, cl, th, ns, ws)
    requires GuardNames(guards) <= ns && GuardWrites(guards) <= ws && Writable(ws, th)
    ensures var (o, f1) := RunGuards(host, guards, map[], cf, sf);
            var (p, l1) := RunGuards(host, guards, th, cl, sl);
            o == p && Simulates(host, sf.locals, sl.locals, f1, l1, cf, cl, th, ns, ws)
  {
    hide Related, Untouched, Writable;
    if guards == [] {
      SimulatesRefl(host, sf, sl, cf, cl, th, ns, ws);
    } else {
      var n := |guards| - 1;
      SimulateGuards(host, guards[..n], th, ns, ws, cf, cl, sf, sl);
      var (o, f1) := RunGuards(host, guards[..n], map[], cf, sf);
      var (p, l1) := RunGuards(host, guards[..n], th, cl, sl);
      if o == Passed {
        ApplyNothing(guards[n]);
        SimulateExpr(host, guards[n], th, ns, ws, cf, cl, f1, l1);
        SimulatesTrans(host, sf.locals, sl.locals, f1, l1, Eval(host, guards[n], cf, f1).1, Eval(host, Apply(guards[n], th), cl, l1).1, cf, cl, th, ns, ws);
      }
    }
  }

  lemma {:induction false} FlipsTransfer(host: Host, e: Expr, th: Subst, ns: set<string>, ws: set<string>, cf: set<string>, cl: set<string>, sf: State, sl: State)
    requires sf.world == sl.world && Related(host, sf.locals, sl.locals, cf, cl, th, ns, ws)
    requires Free(e) <= ns && Writes(e) <= ws && Writable(ws, th)
    ensures FlipsOrdered(host, e, map[], cf, sf) <==> FlipsOrdered(host, e, th, cl, sl)
  {
    hide Related, Untouched, Writable;
    match e
    case Paren(e1) => FlipsTransfer(host, e1, th, ns, ws, cf, cl, sf, sl);
    case Bin(op, l, r) =>
      ApplyNothing(l); ApplyNothing(r);
      SimulateExpr(host, l, th, ns, ws, cf, cl, sf, sl);
      var (a, f1) := Eval(host, l, cf, sf);
      var (b, l1) := Eval(host, Apply(l, th), cl, sl);
      SimulateExpr(host, r, th, ns, ws, cf, cl, f1, l1);
      if !op.Compare? {
        FlipsTransfer(host, l, th, ns, ws, cf, cl, sf, sl);
        FlipsTransfer(host, r, th, ns, ws, cf, cl, f1, l1);
      }
    case _ =>
  }

  lemma {:induction false} GuardsTransfer(host: Host, guards: seq<Expr>, th: Subst, ns: set<string>, ws: set<string>, cf: set<string>, cl: set<string>, sf: State, sl: State)
    requires sf.world == sl.world && Related(host, sf.locals, sl.locals, cf, cl, th, ns, ws)
    requires GuardNames(guards) <= ns && GuardWrites(guards) <= ws && Writable(ws, th)
    ensures GuardsOrdered(host, guards, map[], cf, sf) <==> GuardsOrdered(host, guards, th, cl, sl)
  {
    if guards != [] {
      var n := |guards| - 1;
      hide Related, Untouched, Writable;
      GuardsTransfer(host, guards[..n], th, ns, ws, cf, cl, sf, sl);
      SimulateGuards(host, guards[..n], th, ns, ws, cf, cl, sf, sl);
      FlipsTransfer(host, guards[n], th, ns, ws, cf, cl, RunGuards(host, guards[..n], map[], cf, sf).1, RunGuards(host, guards[..n], th, cl, sl).1);
    }
  }

  /** The substitution a site uses and the scopes it starts from. */
  ghost predicate SiteScopes(host: Host, h: Helper, th: Subst, bound: Locals, l: Locals, c: set<string>) {
    && (forall p :: p in ParamSet(h) && p in OuterNames(h) ==> p in th)
    && th.Keys <= ParamSet(h) && Carried(host, th, bound, l) && bound.Keys == ParamSet(h)
    && FreeNames(h) !! (c + l.Keys)
  }

  /** The names the body shares with its surroundings: its free names and its parameters. */
  function OuterNames(h: Helper): set<string> {
    GuardNames(h.guards) + FreeBlock(h.tail)
  }

  /** Those of them that the body may assign. */
  function OuterWrites(h: Helper): set<string> {
    GuardWrites(h.guards) + WritesBlock(h.tail)
  }

  lemma {:induction false} GuardWritesAreNames(guards: seq<Expr>)
    ensures GuardWrites(guards) <= GuardNames(guards)
  {
    if guards != [] {
      GuardWritesAreNames(guards[..|guards| - 1]);
      ExprWritesAreFree(guards[|guards| - 1]);
    }
  }

  /** Only free names of the helper are assigned, and those are never replaced. */
  lemma WritesAreFreeNames(h: Helper)
    requires Analyzed(h)
    ensures OuterWrites(h) <= FreeNames(h) && OuterWrites(h) <= OuterNames(h) && WritesBlock(h.tail) <= FreeBlock(h.tail)
    ensures FreeNames(h) !! ParamSet(h) + Declared(h.tail) && FreeNames(h) <= OuterNames(h)
    ensures OuterNames(h) <= FreeNames(h) + ParamSet(h)
  {
    WritesAreFree(h.tail);
    GuardWritesAreNames(h.guards);
  }

  lemma BodyRelated(host: Host, h: Helper, th: Subst, bound: Locals, l: Locals, c: set<string>)
    requires Analyzed(h) && SiteScopes(host, h, th, bound, l, c)
    ensures Related(host, Enter(bound, Declared(h.tail)), l, {}, c, th, OuterNames(h), OuterWrites(h))
    ensures Writable(OuterWrites(h), th)
    ensures forall y :: y in l ==> Untouched(y, th, OuterWrites(h))
  {
    var f := Enter(bound, Declared(h.tail));
    WritesAreFreeNames(h);
    hide FreeNames, OuterNames, OuterWrites, Analyzed;
    forall x | x in OuterNames(h) ensures Stands(host, f, l, th, x) || OutsideBoth(f, l, {}, c, th, x) {
      if x in ParamSet(h) {
        OuterIsNotDeclared(h, x);
        assert CarriedAt(host, th, bound, l, x);
      } else {
        assert x in FreeNames(h);
      }
    }
  }

  lemma OuterIsNotDeclared(h: Helper, x: string)
    requires Analyzed(h) && x in OuterNames(h)
    ensures x !in Declared(h.tail)
  {}

  /** `if (condition) { tail }` does what the body does. */
  lemma GuardedBody(host: Host, h: Helper, th: Subst, values: seq<Value>, l: State, c: set<string>)
    requires Analyzed(h) && h.guards != [] && SiteScopes(host, h, th, Bind(h.params, values), l.locals, c)
    requires CaptureFreeBlock(h.tail, th)
    requires GuardsOrdered(host, h.guards, map[], {}, State(l.world, Frame(h, values)))
    ensures var (r, w) := RunHelper(host, h, values, l.world);
            Exec(host, If(Condition(h.guards, th), ApplyAll(h.tail, th), SNil), c, l) == (r, l.(world := w))
  {
    hide Fixed, Image, Stands;
    var f := State(l.world, Frame(h, values));
    var bound := Bind(h.params, values);
    GuardsInScope(host, h, th, bound, f, l, c);
    var (o, f1) := RunGuards(host, h.guards, map[], {}, f);
    var (p, l1) := RunGuards(host, h.guards, th, c, l);
    hide Analyzed, SiteScopes, Simulates, GuardsOrdered, RunGuards, Condition, CaptureFreeBlock;
    match o
    case Passed => TailInBlock(host, h, th, bound, l.locals, f1, l1, c);
    case Stopped => EmptyBlock(host, l1, c);
    case Threw(_) =>
  }

  lemma EmptyBlock(host: Host, st: State, c: set<string>)
    ensures ExecBlock(host, SNil, c, st) == (None, st)
  {
    assert Enter(st.locals, {}) == st.locals;
    assert Leave(st.locals, st.locals, {}) == st.locals;
  }

  /** The run-condition at the call site answers as the guards do in the helper. */
  lemma GuardsInScope(host: Host, h: Helper, th: Subst, bound: Locals, f: State, l: State, c: set<string>)
    requires Analyzed(h) && h.guards != [] && SiteScopes(host, h, th, bound, l.locals, c)
    requires f == State(l.world, Enter(bound, Declared(h.tail)))
    requires GuardsOrdered(host, h.guards, map[], {}, f)
    ensures var (o, f1) := RunGuards(host, h.guards, map[], {}, f);
            var (p, l1) := RunGuards(host, h.guards, th, c, l);
            && o == p && Simulates(host, f.locals, l.locals, f1, l1, {}, c, th, OuterNames(h), OuterWrites(h))
            && Inverts((o, l1), Eval(host, Condition(h.guards, th), c, l))
            && l1.locals == l.locals
  {
    BodyRelated(host, h, th, bound, l.locals, c);
    hide Analyzed, SiteScopes, Related, Writable, Untouched, RunGuards, Condition, GuardsOrdered;
    SimulateGuards(host, h.guards, th, OuterNames(h), OuterWrites(h), {}, c, f, l);
    GuardsTransfer(host, h.guards, th, OuterNames(h), OuterWrites(h), {}, c, f, l);
    GuardInversion(host, h.guards, th, c, l);
    UntouchedScope(host, f.locals, l.locals, RunGuards(host, h.guards, map[], {}, f).1, RunGuards(host, h.guards, th, c, l).1, {}, c, th, OuterNames(h), OuterWrites(h));
  }

  lemma UntouchedScope(host: Host, f: Locals, l: Locals, f1: State, l1: State, cf: set<string>, cl: set<string>, th: Subst, ns: set<string>, ws: set<string>)
    requires Simulates(host, f, l, f1, l1, cf, cl, th, ns, ws) && forall y :: y in l ==> Untouched(y, th, ws)
    ensures l1.locals == l
  {}

  lemma {:induction false} DeclaredInLevel(ss: Stmts)
    ensures Declared(ss) <= Level(ss)
  {
    match ss
    case SNil =>
    case SCons(_, rest) => DeclaredInLevel(rest);
  }

  lemma TailInBlock(host: Host, h: Helper, th: Subst, bound: Locals, l0: Locals, f: State, l: State, c: set<string>)
    requires Analyzed(h) && SiteScopes(host, h, th, bound, l0, c) && l.locals == l0 && CaptureFreeBlock(h.tail, th)
    requires f.world == l.world && Simulates(host, Enter(bound, Declared(h.tail)), l0, f, l, {}, c, th, OuterNames(h), OuterWrites(h))
    ensures var (r, f1) := ExecAll(host, h.tail, {}, f);
            ExecBlock(host, ApplyAll(h.tail, th), c, l) == (r, State(f1.world, l0))
  {
    var d := Declared(h.tail);
    var (fs, wb) := (FreeBlock(h.tail), WritesBlock(h.tail));
    var e := l.(locals := Enter(l.locals, d));
    TailRelated(host, h, th, bound, l0, f, l, c);
    hide Related, Simulates, CaptureFreeAll, Writable, SiteScopes, Untouched;
    SimulateAll(host, h.tail, th, fs + d, wb + d, {}, c, f, e);
    TailLeaves(host, f.locals, l.locals, ExecAll(host, h.tail, {}, f).1, ExecAll(host, ApplyAll(h.tail, th), c, e).1, c, th, fs, wb, d);
  }

  lemma TailRelated(host: Host, h: Helper, th: Subst, bound: Locals, l0: Locals, f: State, l: State, c: set<string>)
    requires Analyzed(h) && SiteScopes(host, h, th, bound, l0, c) && l.locals == l0 && CaptureFreeBlock(h.tail, th)
    requires Simulates(host, Enter(bound, Declared(h.tail)), l0, f, l, {}, c, th, OuterNames(h), OuterWrites(h))
    ensures var (fs, wb, d) := (FreeBlock(h.tail), WritesBlock(h.tail), Declared(h.tail));
            && d <= f.locals.Keys && Declared(ApplyAll(h.tail, th)) == d && th.Keys !! d
            && Related(host, f.locals, Enter(l.locals, d), {}, c, th, fs + d, wb + d)
            && CaptureFreeAll(h.tail, th) && Writable(wb + d, th)
            && forall y :: y in l0 ==> Untouched(y, th, wb)
  {
    hide Analyzed, SiteScopes, Related, FreeNames, OuterNames, OuterWrites, CaptureFreeAll, CaptureFreeBlock, BlockNames, NoCapture, Untouched, Writable;
    var (fs, wb, d) := (FreeBlock(h.tail), WritesBlock(h.tail), Declared(h.tail));
    TailNamesFacts(host, h, th, bound, l0, c);
    TailCaptures(h, th);
    DeclaredApply(h.tail, th);
    assert th - d == th;
    AlreadyEntered(host, bound, l0, f, l, c, th, OuterNames(h), OuterWrites(h), d);
    EnterRelated(host, f.locals, l.locals, {}, c, th, OuterNames(h), OuterWrites(h), fs, wb, d);
  }

  lemma AlreadyEntered(host: Host, bound: Locals, l0: Locals, f: State, l: State, c: set<string>, th: Subst, ns: set<string>, ws: set<string>, d: set<string>)
    requires Simulates(host, Enter(bound, d), l0, f, l, {}, c, th, ns, ws) && ws !! d
    ensures d <= f.locals.Keys && Enter(f.locals, d) == f.locals
  {
    hide Related, Untouched;
    assert forall x :: x in d ==> x in Enter(bound, d) && f.locals[x] == None;
  }

  lemma TailNamesFacts(host: Host, h: Helper, th: Subst, bound: Locals, l: Locals, c: set<string>)
    requires Analyzed(h) && SiteScopes(host, h, th, bound, l, c)
    ensures var (fs, wb, d) := (FreeBlock(h.tail), WritesBlock(h.tail), Declared(h.tail));
            && BlockNames(OuterNames(h), OuterWrites(h), fs, wb, d) && Writable(wb + d, th) && th.Keys !! d && OuterWrites(h) !! d
            && forall y :: y in l ==> Untouched(y, th, wb)
  {
    WritesAreFreeNames(h);
    BodyRelated(host, h, th, bound, l, c);
    hide Related, FreeNames;
    forall y | y in l ensures Untouched(y, th, WritesBlock(h.tail)) { assert Untouched(y, th, OuterWrites(h)); }
  }

  lemma TailCaptures(h: Helper, th: Subst)
    requires CaptureFreeBlock(h.tail, th) && th.Keys !! Declared(h.tail)
    ensures NoCapture(th, FreeBlock(h.tail), Declared(h.tail)) && CaptureFreeAll(h.tail, th)
  {
    assert th - Declared(h.tail) == th;
  }

  lemma TailLeaves(host: Host, f: Locals, l: Locals, f1: State, l1: State, c: set<string>, th: Subst, fs: set<string>, wb: set<string>, d: set<string>)
    requires Simulates(host, f, Enter(l, d), f1, l1, {}, c, th, fs + d, wb + d) && th.Keys !! d
    requires forall y :: y in l ==> Untouched(y, th, wb)
    ensures Leave(l1.locals, l, d) == l
  {
    var l2 := Leave(l1.locals, l, d);
    hide Related, Leave;
    assert l2.Keys == l.Keys;
    forall y | y in l ensures l2[y] == l[y] {
      if y !in d { assert Untouched(y, th, wb) && Untouched(y, th, wb + d); }
    }
  }

  // ------------------------------------------------- a helper without guards

  /** The spliced tail's locals, before their declarations have run. */
  ghost predicate LocalsReady(h: Helper, lo: Subst, l: Locals) {
    && lo.Keys <= Declared(h.tail) && (forall x :: x in lo ==> lo[x].Var?)
    && forall x :: x in Declared(h.tail) ==> Rename(x, lo) in l && l[Rename(x, lo)] == None
  }

  /** The names a guardless site brings into the caller's block. */
  function Spliced(h: Helper, th: Subst, lo: Subst): set<string> {
    Images(th + lo) + (Declared(h.tail) - lo.Keys)
  }

  /** The variables of the spliced tail. */
  function TailNames(h: Helper, lo: Subst): set<string> {
    Images(lo) + (Declared(h.tail) - lo.Keys)
  }

  /** The spliced variables differ from each other and from the names in what replaces parameters. */
  ghost predicate DistinctRenames(h: Helper, th: Subst, lo: Subst) {
    && (forall x, y :: x in Declared(h.tail) && y in Declared(h.tail) && x != y ==> Rename(x, lo) != Rename(y, lo))
    && (forall x, p :: x in Declared(h.tail) && p in th ==> Rename(x, lo) !in Free(th[p]))
  }

  lemma SplicedRelated(host: Host, h: Helper, th: Subst, lo: Subst, bound: Locals, l: Locals, c: set<string>)
    requires Analyzed(h) && SiteScopes(host, h, th, bound, l, c) && LocalsReady(h, lo, l) && DistinctRenames(h, th, lo)
    ensures Related(host, Enter(bound, Declared(h.tail)), l, {}, c, th + lo, OuterNames(h) + Declared(h.tail), OuterWrites(h) + Declared(h.tail))
    ensures Writable(OuterWrites(h) + Declared(h.tail), th + lo)
  {
    var f := Enter(bound, Declared(h.tail));
    var all := th + lo;
    var d := Declared(h.tail);
    WritesAreFreeNames(h);
    forall x | x in OuterNames(h) + d ensures Stands(host, f, l, all, x) || OutsideBoth(f, l, {}, c, all, x) {
      SplicedStands(host, h, th, lo, bound, l, c, x);
    }
    hide Enter, SiteScopes, LocalsReady, DistinctRenames, FreeNames, OuterNames, OuterWrites, Stands, OutsideBoth, Image, Sources, Rename;
    SplicedParts(host, h, th, lo, bound, l, c);
    forall x, y | x in OuterNames(h) + d && x in OuterWrites(h) + d && y in OuterNames(h) + d && x in f && y in f && x != y && Image(x, all).Some?
      ensures Image(x, all).value !in Sources(y, all)
    {
      assert x in d && (y in d || y in th);
      SplicedImagesDiffer(h, th, lo, x, y);
    }
  }

  lemma SplicedStands(host: Host, h: Helper, th: Subst, lo: Subst, bound: Locals, l: Locals, c: set<string>, x: string)
    requires Analyzed(h) && SiteScopes(host, h, th, bound, l, c) && LocalsReady(h, lo, l) && x in OuterNames(h) + Declared(h.tail)
    ensures var f := Enter(bound, Declared(h.tail));
      Stands(host, f, l, th + lo, x) || OutsideBoth(f, l, {}, c, th + lo, x)
  {
    WritesAreFreeNames(h);
    hide FreeNames, OuterNames, OuterWrites, Fixed;
    if x in Declared(h.tail) {
      assert Rename(x, lo) in l;
    } else if x in ParamSet(h) {
      assert CarriedAt(host, th, bound, l, x);
    } else {
      assert x in FreeNames(h);
    }
  }

  /** Which names the two sides of a splice are about. */
  lemma SplicedParts(host: Host, h: Helper, th: Subst, lo: Subst, bound: Locals, l: Locals, c: set<string>)
    requires Analyzed(h) && SiteScopes(host, h, th, bound, l, c) && LocalsReady(h, lo, l)
    ensures th.Keys !! Declared(h.tail) && lo.Keys <= Declared(h.tail) && forall z :: z in lo ==> lo[z].Var?
    ensures forall x :: x in OuterWrites(h) + Declared(h.tail) && x in Enter(bound, Declared(h.tail)) ==> x in Declared(h.tail)
    ensures forall y :: y in OuterNames(h) && y in Enter(bound, Declared(h.tail)) ==> y in th || y in Declared(h.tail)
    ensures forall x :: x in OuterWrites(h) + Declared(h.tail) && x in th + lo ==> (th + lo)[x].Var?
  {
    WritesAreFreeNames(h);
    hide FreeNames, OuterNames, OuterWrites, Carried;
  }

  lemma SplicedImagesDiffer(h: Helper, th: Subst, lo: Subst, x: string, y: string)
    requires th.Keys !! Declared(h.tail) && lo.Keys <= Declared(h.tail) && DistinctRenames(h, th, lo)
    requires (forall z :: z in lo ==> lo[z].Var?) && x in Declared(h.tail) && x != y && (y in Declared(h.tail) || y in th)
    ensures Image(x, th + lo) == Some(Rename(x, lo)) && Rename(x, lo) !in Sources(y, th + lo)
  {}

  /** The tail, spliced into the caller's block, does what the body does. */
  lemma GuardlessBody(host: Host, h: Helper, th: Subst, lo: Subst, values: seq<Value>, l: State, c: set<string>)
    requires Analyzed(h) && h.guards == [] && SiteScopes(host, h, th, Bind(h.params, values), l.locals, c)
    requires LocalsReady(h, lo, l.locals) && DistinctRenames(h, th, lo) && CaptureFreeAll(h.tail, th + lo)
    ensures var (r, w) := RunHelper(host, h, values, l.world);
            var (q, l1) := ExecAll(host, ApplyAll(h.tail, th + lo), c, l);
            && q == r && l1.world == w && l1.locals.Keys == l.locals.Keys
            && forall y :: y in l.locals && y !in TailNames(h, lo) ==> l1.locals[y] == l.locals[y]
  {
    var f := State(l.world, Frame(h, values));
    var (ns, ws) := (OuterNames(h) + Declared(h.tail), OuterWrites(h) + Declared(h.tail));
    SplicedRelated(host, h, th, lo, Bind(h.params, values), l.locals, c);
    DeclaredInLevel(h.tail);
    hide Related, Writable;
    SimulateAll(host, h.tail, th + lo, ns, ws, {}, c, f, l);
    forall y | y in l.locals && y !in TailNames(h, lo) ensures Untouched(y, th + lo, ws) {
      SplicedUntouched(host, h, th, lo, Bind(h.params, values), l.locals, c, y);
    }
  }

  lemma SplicedUntouched(host: Host, h: Helper, th: Subst, lo: Subst, bound: Locals, l: Locals, c: set<string>, y: string)
    requires Analyzed(h) && SiteScopes(host, h, th, bound, l, c) && LocalsReady(h, lo, l)
    requires y in l && y !in TailNames(h, lo)
    ensures Untouched(y, th + lo, OuterWrites(h) + Declared(h.tail))
  {
    var all := th + lo;
    WritesAreFreeNames(h);
    forall x | x in OuterWrites(h) + Declared(h.tail) ensures Image(x, all) != Some(y) {
      if x in lo {
        assert lo[x].x in Images(lo);
      } else if x !in Declared(h.tail) {
        assert x in FreeNames(h);
      }
    }
  }

  // ---------------------------------------------------------- one call site

  /** The names a plan adds to the caller's block. */
  function NewNames(plan: Replacement, reserved: set<string>): set<string> {
    plan.reserved - reserved
  }

  /** The call and its replacement did the same; only the site's own new names changed. */
  ghost predicate SiteDone(sf: State, sl: State, f1: State, l1: State, ks: set<string>, added: set<string>) {
    && f1.world == l1.world && f1.locals.Keys == sf.locals.Keys && l1.locals.Keys == sl.locals.Keys
    && AgreeOutside(f1.locals, l1.locals, ks)
    && (forall y :: y in ks && y in sf.locals ==> f1.locals[y] == sf.locals[y])
    && (forall y :: y in ks && y in sl.locals && y !in added ==> l1.locals[y] == sl.locals[y])
  }

  /** What a call site needs to know about the scopes it is in. */
  ghost predicate SiteOk(host: Host, h: Helper, args: Exprs, plan: Replacement, reserved: set<string>,
                         sf: State, sl: State, ks: set<string>, c: set<string>)
  {
    && Analyzed(h) && ArgCount(args) <= |h.params| && ks !! FreeArgs(args) + FreeNames(h)
    && sf.world == sl.world && AgreeOutside(sf.locals, sl.locals, ks)
    && FreeNames(h) !! c + sf.locals.Keys
    && NewNames(plan, reserved) <= ks * sl.locals.Keys
    && (forall y :: y in NewNames(plan, reserved) ==> sl.locals[y] == None)
    && SiteClear(h, plan)
    && CallOrdered(host, h, args, c, sf)
  }

  lemma SiteScopesHold(host: Host, h: Helper, args: Exprs, reserved: set<string>, values: seq<Value>, f: Locals, l: Locals, ks: set<string>, c: set<string>)
    requires Analyzed(h) && StrictPlan(h, h.params, reserved, PlanArgs(h, h.params, args, reserved, true))
    requires Carried(host, PlanArgs(h, h.params, args, reserved, true).th, Bind(h.params, values), l)
    requires AgreeOutside(f, l, ks) && ks !! FreeNames(h) && FreeNames(h) !! c + f.Keys
    ensures SiteScopes(host, h, PlanArgs(h, h.params, args, reserved, true).th, Bind(h.params, values), l, c)
  {
    BindKeys(h.params, values);
    var th := PlanArgs(h, h.params, args, reserved, true).th;
    forall p | p in ParamSet(h) && p in OuterNames(h) ensures p in th {
      UsesAreNames(p, h);
    }
    assert Bind(h.params, values).Keys == ParamSet(h);
    forall x | x in FreeNames(h) ensures x !in l { assert x !in ks; }
  }

  lemma GuardedSite(host: Host, h: Helper, args: Exprs, reserved: set<string>, sf: State, sl: State, ks: set<string>, c: set<string>)
    requires h.guards != [] && SiteOk(host, h, args, PlanSite(h, args, reserved, true), reserved, sf, sl, ks, c)
    ensures var plan := PlanSite(h, args, reserved, true);
            && Inserted(plan).Some?
            && var (r, f1) := ExecCall(host, h, args, c, sf);
               var (q, l1) := ExecAll(host, Inserted(plan).value, c, sl);
               q == r && SiteDone(sf, sl, f1, l1, ks, NewNames(plan, reserved))
  {
    var plan := PlanArgs(h, h.params, args, reserved, true);
    var th := plan.th;
    GuardedPlan(h, args, reserved);
    PrefixRuns(host, h, h.params, args, reserved, sf, sl, ks, c);
    var (vs, f1) := EvalArgs(host, args, c, sf);
    var (q, l1) := ExecAll(host, plan.prefix, c, sl);
    var guarded := If(Condition(h.guards, th), ApplyAll(h.tail, th), SNil);
    ExecAppend(host, plan.prefix, SCons(guarded, SNil), c, sl);
    ExecOne(host, guarded, c, l1);
    hide PlanSite, Inserted, PlanArgs, Exec, ExecAll, EvalArgs, Append, Images, NewNames, AgreeOutside, RunHelper, FreeNames, Frame, Bind, PrefixDone, SiteDone, Condition, ApplyAll;
    PrefixMeans(host, h.params, th, ks, sf, sl, vs, f1, q, l1);
    if vs.Ok? {
      SiteScopesHold(host, h, args, reserved, vs.value, f1.locals, l1.locals, ks, c);
      hide Analyzed, StrictPlan, SiteScopes, GuardsOrdered, Carried, CaptureFreeBlock;
      GuardedBody(host, h, th, vs.value, l1, c);
      BodyDone(host, h.params, th, ks, sf, sl, vs, f1, q, l1, RunHelper(host, h, vs.value, l1.world).1);
    } else {
      PrefixThrew(host, h.params, th, ks, sf, sl, vs, f1, q, l1);
    }
  }

  lemma GuardedPlan(h: Helper, args: Exprs, reserved: set<string>)
    requires Analyzed(h) && h.guards != []
    ensures var plan := PlanArgs(h, h.params, args, reserved, true);
            var site := PlanSite(h, args, reserved, true);
            && StrictPlan(h, h.params, reserved, plan)
            && site.th == plan.th && NewNames(site, reserved) == Images(plan.th)
            && Inserted(site) == Some(Append(plan.prefix, SCons(If(Condition(h.guards, plan.th), ApplyAll(h.tail, plan.th), SNil), SNil)))
  {
    StrictPlanFacts(h, h.params, args, reserved);
    var th := PlanArgs(h, h.params, args, reserved, true).th;
    assert Primaries(th);
    ConditionParses(h.guards, th);
  }

  lemma PrefixMeans(host: Host, params: seq<string>, th: Subst, ks: set<string>, sf: State, sl: State,
                    vs: Result<seq<Value>, Value>, f1: State, r: Completion, l1: State)
    requires PrefixDone(host, params, th, ks, sf, sl, vs, f1, r, l1)
    ensures f1.world == l1.world && f1.locals.Keys == sf.locals.Keys && l1.locals.Keys == sl.locals.Keys
    ensures AgreeOutside(f1.locals, l1.locals, ks) && r == (if vs.Err? then Some(vs.error) else None)
    ensures vs.Ok? ==> Carried(host, th, Bind(params, vs.value), l1.locals)
    ensures forall y :: y in ks && y in sl.locals && y !in Images(th) ==> l1.locals[y] == sl.locals[y]
  {}

  lemma PrefixThrew(host: Host, params: seq<string>, th: Subst, ks: set<string>, sf: State, sl: State,
                    vs: Result<seq<Value>, Value>, f1: State, r: Completion, l1: State)
    requires PrefixDone(host, params, th, ks, sf, sl, vs, f1, r, l1) && vs.Err?
    ensures SiteDone(sf, sl, f1, l1, ks, Images(th)) && r == Some(vs.error)
  {}

  lemma BodyDone(host: Host, params: seq<string>, th: Subst, ks: set<string>, sf: State, sl: State,
                 vs: Result<seq<Value>, Value>, f1: State, r: Completion, l1: State, w: World)
    requires PrefixDone(host, params, th, ks, sf, sl, vs, f1, r, l1) && vs.Ok?
    ensures SiteDone(sf, sl, f1.(world := w), l1.(world := w), ks, Images(th))
  {}

  lemma GuardlessPlan(h: Helper, args: Exprs, reserved: set<string>)
    requires Analyzed(h) && h.guards == []
    ensures var plan := PlanArgs(h, h.params, args, reserved, true);
            var (lo, after) := PlanLocals(h.tail, plan.reserved);
            var site := PlanSite(h, args, reserved, true);
            && StrictPlan(h, h.params, reserved, plan) && LocalsPlan(h.tail, plan.reserved, lo, after)
            && site.th == plan.th + lo && DistinctRenames(h, plan.th, lo) && Images(plan.th) <= Images(plan.th + lo)
            && NewNames(site, reserved) == Spliced(h, plan.th, lo)
            && Inserted(site) == Some(Append(plan.prefix, ApplyAll(h.tail, plan.th + lo)))
  {
    var plan := PlanArgs(h, h.params, args, reserved, true);
    var (lo, after) := PlanLocals(h.tail, plan.reserved);
    StrictPlanFacts(h, h.params, args, reserved);
    LocalsPlanFacts(h.tail, plan.reserved);
    forall p | p in plan.th ensures Free(plan.th[p]) <= plan.reserved {
      assert plan.th[p].Var? ==> plan.th[p].x in Images(plan.th);
    }
    RenamesDiffer(h, plan.th, lo, plan.reserved, after);
    ImagesOfUnion(plan.th, lo);
    assert NewNames(PlanSite(h, args, reserved, true), reserved) == Spliced(h, plan.th, lo);
  }

  lemma RenamesDiffer(h: Helper, th: Subst, lo: Subst, taken: set<string>, after: set<string>)
    requires LocalsPlan(h.tail, taken, lo, after) && forall p :: p in th ==> Free(th[p]) <= taken
    ensures DistinctRenames(h, th, lo)
  {
    forall x | x in Declared(h.tail) ensures Rename(x, lo) !in taken && (x in lo ==> Rename(x, lo) in Images(lo)) {
      if x in lo { assert lo[x].x in Images(lo); }
    }
  }

  lemma LocalsAreReady(h: Helper, th: Subst, lo: Subst, after: set<string>, taken: set<string>, ks: set<string>, sl: Locals, l: Locals)
    requires LocalsPlan(h.tail, taken, lo, after) && Images(th) <= taken && th.Keys !! lo.Keys
    requires Spliced(h, th, lo) <= ks && forall y :: y in Spliced(h, th, lo) ==> y in sl && sl[y] == None
    requires l.Keys == sl.Keys && forall y :: y in ks && y in sl && y !in Images(th) ==> l[y] == sl[y]
    ensures LocalsReady(h, lo, l)
  {
    ImagesOfUnion(th, lo);
    forall x | x in Declared(h.tail) ensures Rename(x, lo) in l && l[Rename(x, lo)] == None {
      if x in lo { assert lo[x].x in Images(lo); }
    }
  }

  lemma GuardlessSite(host: Host, h: Helper, args: Exprs, reserved: set<string>, sf: State, sl: State, ks: set<string>, c: set<string>)
    requires h.guards == [] && SiteOk(host, h, args, PlanSite(h, args, reserved, true), reserved, sf, sl, ks, c)
    ensures var plan := PlanSite(h, args, reserved, true);
            && Inserted(plan).Some?
            && var (r, f1) := ExecCall(host, h, args, c, sf);
               var (q, l1) := ExecAll(host, Inserted(plan).value, c, sl);
               q == r && SiteDone(sf, sl, f1, l1, ks, NewNames(plan, reserved))
  {
    var plan := PlanArgs(h, h.params, args, reserved, true);
    var th := plan.th;
    var (lo, after) := PlanLocals(h.tail, plan.reserved);
    GuardlessPlan(h, args, reserved);
    PrefixRuns(host, h, h.params, args, reserved, sf, sl, ks, c);
    var (vs, f1) := EvalArgs(host, args, c, sf);
    var (q, l1) := ExecAll(host, plan.prefix, c, sl);
    ExecAppend(host, plan.prefix, ApplyAll(h.tail, th + lo), c, sl);
    hide PlanSite, Inserted, PlanArgs, PlanLocals, RunHelper, ExecAll, EvalArgs, Append, NewNames, AgreeOutside, FreeNames, Frame, Bind, PrefixDone, SiteDone, ApplyAll;
    ImagesInSpliced(h, th, lo);
    PrefixMeans(host, h.params, th, ks, sf, sl, vs, f1, q, l1);
    if vs.Ok? {
      SiteScopesHold(host, h, args, reserved, vs.value, f1.locals, l1.locals, ks, c);
      LocalsAreReady(h, th, lo, after, plan.reserved, ks, sl.locals, l1.locals);
      hide Analyzed, StrictPlan, SiteScopes, LocalsReady, LocalsPlan, Carried, Spliced, CaptureFreeAll;
      GuardlessBody(host, h, th, lo, vs.value, l1, c);
      SplicedDone(host, h.params, th, Spliced(h, th, lo), ks, sf, sl, vs, f1, q, l1,
                  RunHelper(host, h, vs.value, l1.world).1, ExecAll(host, ApplyAll(h.tail, th + lo), c, l1).1);
    } else {
      PrefixThrew(host, h.params, th, ks, sf, sl, vs, f1, q, l1);
    }
  }

  lemma ImagesInSpliced(h: Helper, th: Subst, lo: Subst)
    requires th.Keys !! lo.Keys
    ensures Images(th) <= Spliced(h, th, lo) && TailNames(h, lo) <= Spliced(h, th, lo)
  {
    ImagesOfUnion(th, lo);
  }

  lemma SplicedDone(host: Host, params: seq<string>, th: Subst, added: set<string>, ks: set<string>, sf: State, sl: State,
                    vs: Result<seq<Value>, Value>, f1: State, r: Completion, l1: State, w: World, l2: State)
    requires PrefixDone(host, params, th, ks, sf, sl, vs, f1, r, l1) && vs.Ok? && Images(th) <= added <= ks
    requires l2.world == w && l2.locals.Keys == l1.locals.Keys
    requires forall y :: y in l1.locals && y !in added ==> l2.locals[y] == l1.locals[y]
    ensures SiteDone(sf, sl, f1.(world := w), l2, ks, added)
  {}

  /** Strict-mode inlining is exact at one call site. */
  lemma SiteRuns(host: Host, h: Helper, args: Exprs, reserved: set<string>, sf: State, sl: State, ks: set<string>, c: set<string>)
    requires SiteOk(host, h, args, PlanSite(h, args, reserved, true), reserved, sf, sl, ks, c)
    ensures var plan := PlanSite(h, args, reserved, true);
            && Inserted(plan).Some?
            && var (r, f1) := ExecCall(host, h, args, c, sf);
               var (q, l1) := ExecAll(host, Inserted(plan).value, c, sl);
               q == r && SiteDone(sf, sl, f1, l1, ks, NewNames(plan, reserved))
  {
    if h.guards == [] {
      GuardlessSite(host, h, args, reserved, sf, sl, ks, c);
    } else {
      GuardedSite(host, h, args, reserved, sf, sl, ks, c);
    }
  }

  // -------------------------------------------------------------- the block

  /** What holds of the rest of a block whatever its variables hold; `keys` are the variables
      around it. */
  ghost predicate Static(h: Helper, items: Items, reserved: set<string>, ks: set<string>, c: set<string>, keys: set<string>) {
    && Analyzed(h) && ArityOk(h, items) && SitesClear(h, items, reserved)
    && ks !! MentionsItems(h, items) + FreeNames(h)
    && FreeNames(h) !! c + keys + DeclaredWithin(items) && DeclaredItems(items) <= keys
  }

  ghost predicate StaticBlock(h: Helper, items: Items, ks: set<string>, c: set<string>, keys: set<string>) {
    && Analyzed(h) && ArityOk(h, items) && BlockClear(h, items)
    && ks !! MentionsItems(h, items) + FreeNames(h)
    && FreeNames(h) !! c + keys + DeclaredWithin(items)
  }

  lemma StaticPlain(h: Helper, s: Stmt, rest: Items, reserved: set<string>, ks: set<string>, c: set<string>, keys: set<string>)
    requires Static(h, IPlain(s, rest), reserved, ks, c, keys)
    ensures Static(h, rest, reserved, ks, c, keys) && ks !! LevelStmt(s) && (s.Decl? ==> s.x in keys)
  {
    hide FreeNames, LevelStmt, NestedStmt, InnerStmt;
  }

  lemma StaticNest(h: Helper, b: Items, rest: Items, reserved: set<string>, ks: set<string>, c: set<string>, keys: set<string>)
    requires Static(h, INest(b, rest), reserved, ks, c, keys)
    ensures Static(h, rest, reserved, ks, c, keys) && StaticBlock(h, b, ks, c, keys)
  {
    hide FreeNames, BlockClear;
  }

  lemma StaticBranch(h: Helper, e: Expr, t: Items, f: Items, rest: Items, reserved: set<string>, ks: set<string>, c: set<string>, keys: set<string>)
    requires Static(h, IBranch(e, t, f, rest), reserved, ks, c, keys)
    ensures Static(h, rest, reserved, ks, c, keys) && ks !! Free(e)
    ensures StaticBlock(h, t, ks, c, keys) && StaticBlock(h, f, ks, c, keys)
  {
    hide FreeNames, BlockClear, Free;
  }

  /** What the rest of a block knows about the scopes it runs in, before and after inlining. */
  ghost predicate BlockOk(host: Host, h: Helper, items: Items, reserved: set<string>, sf: State, sl: State, ks: set<string>, c: set<string>) {
    && Static(h, items, reserved, ks, c, sf.locals.Keys)
    && sf.world == sl.world && AgreeOutside(sf.locals, sl.locals, ks)
    && CallsOrdered(host, h, items, c, sf)
  }

  /** The names all remaining sites will introduce are there, and not yet declared. */
  ghost predicate NamesWaiting(added: set<string>, sl: State, ks: set<string>) {
    added <= ks * sl.locals.Keys && forall y :: y in added ==> sl.locals[y] == None
  }

  lemma {:induction false} InlineItemsTotal(h: Helper, items: Items, reserved: set<string>)
    requires Analyzed(h)
    ensures InlineItems(h, items, reserved).Some?
    ensures reserved <= InlineItems(h, items, reserved).value.1
    decreases items, 0
  {
    match items
    case INil =>
    case IPlain(s, rest) => InlineItemsTotal(h, rest, reserved);
    case ISite(args, rest) =>
      SiteInserts(h, args, reserved);
      InlineItemsTotal(h, rest, PlanSite(h, args, reserved, true).reserved);
    case INest(b, rest) =>
      InlineBlockTotal(h, b);
      InlineItemsTotal(h, rest, reserved);
    case IBranch(_, t, f, rest) =>
      InlineBlockTotal(h, t);
      InlineBlockTotal(h, f);
      InlineItemsTotal(h, rest, reserved);
  }

  lemma {:induction false} InlineBlockTotal(h: Helper, items: Items)
    requires Analyzed(h)
    ensures InlineBlock(h, items).Some?
    decreases items, 1
  {
    InlineItemsTotal(h, items, MentionsItems(h, items));
  }

  lemma SiteInserts(h: Helper, args: Exprs, reserved: set<string>)
    requires Analyzed(h)
    ensures var site := PlanSite(h, args, reserved, true);
            Inserted(site).Some? && reserved <= site.reserved && Declared(Inserted(site).value) == NewNames(site, reserved)
  {
    var plan := PlanArgs(h, h.params, args, reserved, true);
    if h.guards == [] {
      GuardlessPlan(h, args, reserved);
      var (lo, after) := PlanLocals(h.tail, plan.reserved);
      DeclaredAppend(plan.prefix, ApplyAll(h.tail, plan.th + lo));
      DeclaredRenamed(h.tail, plan.th + lo);
      SplicedIsRenamed(h, plan.th, lo);
    } else {
      GuardedPlan(h, args, reserved);
      DeclaredAppend(plan.prefix, SCons(If(Condition(h.guards, plan.th), ApplyAll(h.tail, plan.th), SNil), SNil));
    }
  }

  lemma {:induction false} DeclaredAppend(a: Stmts, b: Stmts)
    ensures Declared(Append(a, b)) == Declared(a) + Declared(b)
  {
    match a
    case SNil =>
    case SCons(_, rest) => DeclaredAppend(rest, b);
  }

  lemma {:induction false} DeclaredRenamed(ss: Stmts, th: Subst)
    ensures Declared(ApplyAll(ss, th)) == set x | x in Declared(ss) :: Rename(x, th)
  {
    match ss
    case SNil =>
    case SCons(_, rest) => DeclaredRenamed(rest, th);
  }

  lemma SplicedIsRenamed(h: Helper, th: Subst, lo: Subst)
    requires th.Keys !! Declared(h.tail) && lo.Keys <= Declared(h.tail)
    requires forall x :: x in lo ==> lo[x].Var?
    ensures Images(th) + (set x | x in Declared(h.tail) :: Rename(x, th + lo)) == Spliced(h, th, lo)
  {
    ImagesOfUnion(th, lo);
    var renamed := set x | x in Declared(h.tail) :: Rename(x, th + lo);
    forall y | y in Images(lo) ensures y in renamed {
      var x :| x in lo && lo[x].Var? && lo[x].x == y;
      assert x in Declared(h.tail) && Rename(x, th + lo) == y;
    }
    forall x | x in Declared(h.tail) && x !in lo ensures x in renamed {
      assert Rename(x, th + lo) == x;
    }
    forall y | y in renamed ensures y in Images(lo) + (Declared(h.tail) - lo.Keys) {
      var x :| x in Declared(h.tail) && Rename(x, th + lo) == y;
      if x in lo { assert lo[x].x in Images(lo); }
    }
  }

  // ----------------------------------------------- nested blocks, in two scopes

  /** A block that mentions no new name, calls of the helper included, runs alike in both
      scopes, and its calls meet the same operands. */
  lemma {:induction false} WeakenItems(host: Host, h: Helper, items: Items, c: set<string>, sf: State, sl: State, ks: set<string>)
    requires sf.world == sl.world && AgreeOutside(sf.locals, sl.locals, ks) && ks !! MentionsItems(h, items)
    requires DeclaredItems(items) <= sf.locals.Keys
    ensures var (a, f1) := ExecItems(host, h, items, c, sf);
            var (b, l1) := ExecItems(host, h, items, c, sl);
            a == b && WeakStep(sf, sl, f1, l1, ks)
    ensures CallsOrdered(host, h, items, c, sf) <==> CallsOrdered(host, h, items, c, sl)
    decreases items, 1
  {
    hide Exec, ExecCall, WeakStep, CallOrdered, AgreeOutside, LevelStmt, NestedStmt, InnerStmt, Enter, Leave, BlockOrdered, ExecItemBlock;
    match items
    case INil => WeakRefl(sf, sl, ks);
    case IPlain(s, rest) =>
      DeclaredHere(s, rest);
      WeakenStmt(host, s, c, sf, sl, ks);
      var (a, f1) := Exec(host, s, c, sf);
      var (b, l1) := Exec(host, s, c, sl);
      if a.None? { WeakenRest(host, h, rest, c, sf, sl, f1, l1, ks); }
    case ISite(args, rest) =>
      WeakenCall(host, h, args, c, sf, sl, ks);
      var (a, f1) := ExecCall(host, h, args, c, sf);
      var (b, l1) := ExecCall(host, h, args, c, sl);
      if a.None? { WeakenRest(host, h, rest, c, sf, sl, f1, l1, ks); }
    case INest(body, rest) =>
      WeakenItemBlock(host, h, body, c, sf, sl, ks);
      var (a, f1) := ExecItemBlock(host, h, body, c, sf);
      var (b, l1) := ExecItemBlock(host, h, body, c, sl);
      if a.None? { WeakenRest(host, h, rest, c, sf, sl, f1, l1, ks); }
    case IBranch(_, _, _, _) => WeakenBranch(host, h, items, c, sf, sl, ks);
  }

  lemma DeclaredHere(s: Stmt, rest: Items)
    ensures DeclaredItems(rest) <= DeclaredItems(IPlain(s, rest)) && (s.Decl? ==> s.x in DeclaredItems(IPlain(s, rest)))
  {}

  lemma WeakRefl(sf: State, sl: State, ks: set<string>)
    requires sf.world == sl.world && AgreeOutside(sf.locals, sl.locals, ks)
    ensures WeakStep(sf, sl, sf, sl, ks)
  {}

  lemma WeakTrans(sf: State, sl: State, f1: State, l1: State, f2: State, l2: State, ks: set<string>)
    requires WeakStep(sf, sl, f1, l1, ks) && WeakStep(f1, l1, f2, l2, ks)
    ensures WeakStep(sf, sl, f2, l2, ks)
  {}

  lemma WeakMeans(sf: State, sl: State, f1: State, l1: State, ks: set<string>)
    requires WeakStep(sf, sl, f1, l1, ks)
    ensures f1.world == l1.world && AgreeOutside(f1.locals, l1.locals, ks)
    ensures f1.locals.Keys == sf.locals.Keys && l1.locals.Keys == sl.locals.Keys
  {}

  lemma {:induction false} WeakenRest(host: Host, h: Helper, rest: Items, c: set<string>, sf: State, sl: State, f1: State, l1: State, ks: set<string>)
    requires WeakStep(sf, sl, f1, l1, ks) && ks !! MentionsItems(h, rest) && DeclaredItems(rest) <= sf.locals.Keys
    ensures var (a, f2) := ExecItems(host, h, rest, c, f1);
            var (b, l2) := ExecItems(host, h, rest, c, l1);
            a == b && WeakStep(sf, sl, f2, l2, ks)
    ensures CallsOrdered(host, h, rest, c, f1) <==> CallsOrdered(host, h, rest, c, l1)
    decreases rest, 2
  {
    hide ExecItems, CallsOrdered, MentionsItems, DeclaredItems, WeakStep, AgreeOutside;
    WeakMeans(sf, sl, f1, l1, ks);
    WeakenItems(host, h, rest, c, f1, l1, ks);
    WeakTrans(sf, sl, f1, l1, ExecItems(host, h, rest, c, f1).1, ExecItems(host, h, rest, c, l1).1, ks);
  }

  lemma WeakenCall(host: Host, h: Helper, args: Exprs, c: set<string>, sf: State, sl: State, ks: set<string>)
    requires sf.world == sl.world && AgreeOutside(sf.locals, sl.locals, ks) && ks !! FreeArgs(args)
    ensures var (a, f1) := ExecCall(host, h, args, c, sf);
            var (b, l1) := ExecCall(host, h, args, c, sl);
            a == b && WeakStep(sf, sl, f1, l1, ks)
    ensures CallOrdered(host, h, args, c, sf) <==> CallOrdered(host, h, args, c, sl)
  {
    hide RunHelper, GuardsOrdered;
    AgreeRelated(host, sf.locals, sl.locals, ks, c, FreeArgs(args));
    ApplyNothingArgs(args);
    ArgsWritesAreFree(args);
    SimulateArgs(host, args, map[], FreeArgs(args), FreeArgs(args), c, c, sf, sl);
    var (vs, f1) := EvalArgs(host, args, c, sf);
    var (us, l1) := EvalArgs(host, args, c, sl);
    SimulatesAgree(host, sf.locals, sl.locals, f1, l1, ks, c, FreeArgs(args));
    hide Simulates, Related, AgreeOutside;
  }

  lemma MentionsParts(h: Helper, items: Items)
    requires items.IBranch?
    ensures Free(items.cond) <= MentionsItems(h, items) && MentionsItems(h, items.then_) <= MentionsItems(h, items)
    ensures MentionsItems(h, items.else_) <= MentionsItems(h, items) && MentionsItems(h, items.rest) <= MentionsItems(h, items)
  {}

  lemma {:induction false} WeakenBranch(host: Host, h: Helper, items: Items, c: set<string>, sf: State, sl: State, ks: set<string>)
    requires items.IBranch? && DeclaredItems(items.rest) <= sf.locals.Keys
    requires sf.world == sl.world && AgreeOutside(sf.locals, sl.locals, ks) && ks !! MentionsItems(h, items)
    ensures var (a, f1) := ExecItems(host, h, items, c, sf);
            var (b, l1) := ExecItems(host, h, items, c, sl);
            a == b && WeakStep(sf, sl, f1, l1, ks)
    ensures CallsOrdered(host, h, items, c, sf) <==> CallsOrdered(host, h, items, c, sl)
    decreases items, 0
  {
    hide Eval, WeakStep, AgreeOutside, Enter, Leave, BlockOrdered, ExecItemBlock, MentionsItems, DeclaredItems, Free, Truthy;
    var IBranch(e, t, f, rest) := items;
    MentionsParts(h, items);
    WeakenExpr(host, e, c, sf, sl, ks);
    var (x, f1) := Eval(host, e, c, sf);
    var (y, l1) := Eval(host, e, c, sl);
    if x.Yields? {
      WeakMeans(sf, sl, f1, l1, ks);
      var body := if Truthy(x.value) then t else f;
      WeakenItemBlock(host, h, body, c, f1, l1, ks);
      var (a, f2) := ExecItemBlock(host, h, body, c, f1);
      var (b, l2) := ExecItemBlock(host, h, body, c, l1);
      WeakTrans(sf, sl, f1, l1, f2, l2, ks);
      WeakMeans(sf, sl, f2, l2, ks);
      if a.None? { WeakenRest(host, h, rest, c, sf, sl, f2, l2, ks); }
    }
  }

  lemma {:induction false} WeakenItemBlock(host: Host, h: Helper, items: Items, c: set<string>, sf: State, sl: State, ks: set<string>)
    requires sf.world == sl.world && AgreeOutside(sf.locals, sl.locals, ks) && ks !! MentionsItems(h, items)
    ensures var (a, f1) := ExecItemBlock(host, h, items, c, sf);
            var (b, l1) := ExecItemBlock(host, h, items, c, sl);
            a == b && WeakStep(sf, sl, f1, l1, ks)
    ensures BlockOrdered(host, h, items, c, sf) <==> BlockOrdered(host, h, items, c, sl)
    decreases items, 2
  {
    var d := DeclaredItems(items);
    DeclaredMentioned(h, items);
    var ef, el := sf.(locals := Enter(sf.locals, d)), sl.(locals := Enter(sl.locals, d));
    WeakenItems(host, h, items, c, ef, el, ks);
    hide ExecItems, MentionsItems, DeclaredItems, CallsOrdered;
    WeakLeave(sf, sl, ExecItems(host, h, items, c, ef).1, ExecItems(host, h, items, c, el).1, ks, d);
  }

  lemma WeakLeave(sf: State, sl: State, f1: State, l1: State, ks: set<string>, d: set<string>)
    requires AgreeOutside(sf.locals, sl.locals, ks) && d !! ks
    requires WeakStep(sf.(locals := Enter(sf.locals, d)), sl.(locals := Enter(sl.locals, d)), f1, l1, ks)
    ensures WeakStep(sf, sl, f1.(locals := Leave(f1.locals, sf.locals, d)), l1.(locals := Leave(l1.locals, sl.locals, d)), ks)
  {
    hide Enter, Leave;
  }

  /** A nested block and its inlined form do the same, though one runs beside the new names
      of the block around it. */
  lemma {:induction false} NestRuns(host: Host, h: Helper, items: Items, sf: State, sl: State, ks: set<string>, c: set<string>)
    requires StaticBlock(h, items, ks, c, sf.locals.Keys)
    requires sf.world == sl.world && AgreeOutside(sf.locals, sl.locals, ks)
    requires BlockOrdered(host, h, items, c, sf)
    ensures InlineBlock(h, items).Some?
    ensures var (r, f1) := ExecItemBlock(host, h, items, c, sf);
            var (q, l1) := ExecBlock(host, InlineBlock(h, items).value, c, sl);
            q == r && WeakStep(sf, sl, f1, l1, ks)
    decreases items, 4
  {
    hide Analyzed, BlockClear, FreeNames, MentionsItems, DeclaredWithin, BlockOrdered, ArityOk, WeakStep, InlineBlock;
    WeakenItemBlock(host, h, items, c, sf, sl, ks);
    assert FreeNames(h) !! sl.locals.Keys by {
      forall x | x in FreeNames(h) ensures x !in sl.locals { assert x !in ks && x !in sf.locals; }
    }
    StrictInliningIsExact(host, h, items, c, sl);
  }

  lemma {:induction false} ItemsRun(host: Host, h: Helper, items: Items, reserved: set<string>, sf: State, sl: State, ks: set<string>, c: set<string>)
    requires BlockOk(host, h, items, reserved, sf, sl, ks, c)
    requires InlineItems(h, items, reserved).Some?
    requires NamesWaiting(InlineItems(h, items, reserved).value.1 - reserved, sl, ks)
    ensures var (r, f1) := ExecItems(host, h, items, c, sf);
            var (q, l1) := ExecAll(host, InlineItems(h, items, reserved).value.0, c, sl);
            q == r && SiteDone(sf, sl, f1, l1, ks, ks)
    decreases items, 1
  {
    match items
    case INil =>
    case IPlain(_, _) => PlainThenRest(host, h, items, reserved, sf, sl, ks, c);
    case ISite(args, rest) =>
      var plan := PlanSite(h, args, reserved, true);
      var here := Inserted(plan).value;
      SiteThenRest(host, h, args, rest, reserved, sf, sl, ks, c);
      ExecAppend(host, here, InlineItems(h, rest, plan.reserved).value.0, c, sl);
      var (a, f1) := ExecCall(host, h, args, c, sf);
      var (b, l1) := ExecAll(host, here, c, sl);
      hide PlanSite, Inserted, ExecCall, Analyzed, BlockOk, NamesWaiting;
      if a.None? {
        ItemsRun(host, h, rest, plan.reserved, f1, l1, ks, c);
        hide SiteDone;
        SiteDoneTrans(sf, sl, f1, l1, ExecItems(host, h, rest, c, f1).1,
                      ExecAll(host, InlineItems(h, rest, plan.reserved).value.0, c, l1).1, ks, NewNames(plan, reserved));
      } else {
        SiteDoneWeaken(sf, sl, f1, l1, ks, NewNames(plan, reserved));
      }
    case INest(_, _) => NestThenRest(host, h, items, reserved, sf, sl, ks, c);
    case IBranch(_, _, _, _) => BranchThenRest(host, h, items, reserved, sf, sl, ks, c);
  }

  lemma {:induction false} PlainThenRest(host: Host, h: Helper, items: Items, reserved: set<string>, sf: State, sl: State, ks: set<string>, c: set<string>)
    requires items.IPlain? && BlockOk(host, h, items, reserved, sf, sl, ks, c)
    requires InlineItems(h, items, reserved).Some?
    requires NamesWaiting(InlineItems(h, items, reserved).value.1 - reserved, sl, ks)
    ensures var (r, f1) := ExecItems(host, h, items, c, sf);
            var (q, l1) := ExecAll(host, InlineItems(h, items, reserved).value.0, c, sl);
            q == r && SiteDone(sf, sl, f1, l1, ks, ks)
    decreases items, 0
  {
    hide Exec, Static, WeakStep, AgreeOutside, NamesWaiting, SiteDone, LevelStmt;
    var IPlain(s, rest) := items;
    StaticPlain(h, s, rest, reserved, ks, c, sf.locals.Keys);
    WeakenStmt(host, s, c, sf, sl, ks);
    var (a, f1) := Exec(host, s, c, sf);
    var (b, l1) := Exec(host, s, c, sl);
    if a.None? {
      WeakWaiting(sf, sl, f1, l1, ks, InlineItems(h, rest, reserved).value.1 - reserved);
      RestRuns(host, h, rest, reserved, sf, sl, f1, l1, ks, c);
    } else {
      WeakDone(sf, sl, f1, l1, ks);
    }
  }

  lemma WeakWaiting(sf: State, sl: State, f1: State, l1: State, ks: set<string>, added: set<string>)
    requires WeakStep(sf, sl, f1, l1, ks) && NamesWaiting(added, sl, ks)
    ensures NamesWaiting(added, l1, ks) && f1.world == l1.world && AgreeOutside(f1.locals, l1.locals, ks) && f1.locals.Keys == sf.locals.Keys
  {}

  lemma WeakDone(sf: State, sl: State, f1: State, l1: State, ks: set<string>)
    requires WeakStep(sf, sl, f1, l1, ks)
    ensures SiteDone(sf, sl, f1, l1, ks, ks)
  {}

  lemma {:induction false} RestRuns(host: Host, h: Helper, rest: Items, reserved: set<string>, sf: State, sl: State, f1: State, l1: State, ks: set<string>, c: set<string>)
    requires WeakStep(sf, sl, f1, l1, ks) && Static(h, rest, reserved, ks, c, sf.locals.Keys) && CallsOrdered(host, h, rest, c, f1)
    requires InlineItems(h, rest, reserved).Some? && NamesWaiting(InlineItems(h, rest, reserved).value.1 - reserved, l1, ks)
    ensures var (r, f2) := ExecItems(host, h, rest, c, f1);
            var (q, l2) := ExecAll(host, InlineItems(h, rest, reserved).value.0, c, l1);
            q == r && SiteDone(sf, sl, f2, l2, ks, ks)
    decreases rest, 2
  {
    WeakMeans(sf, sl, f1, l1, ks);
    hide ExecItems, InlineItems, Static, CallsOrdered, NamesWaiting, WeakStep, AgreeOutside;
    ItemsRun(host, h, rest, reserved, f1, l1, ks, c);
    WeakThenDone(sf, sl, f1, l1, ExecItems(host, h, rest, c, f1).1, ExecAll(host, InlineItems(h, rest, reserved).value.0, c, l1).1, ks);
  }

  lemma {:induction false} NestThenRest(host: Host, h: Helper, items: Items, reserved: set<string>, sf: State, sl: State, ks: set<string>, c: set<string>)
    requires items.INest? && BlockOk(host, h, items, reserved, sf, sl, ks, c)
    requires InlineItems(h, items, reserved).Some?
    requires NamesWaiting(InlineItems(h, items, reserved).value.1 - reserved, sl, ks)
    ensures var (r, f1) := ExecItems(host, h, items, c, sf);
            var (q, l1) := ExecAll(host, InlineItems(h, items, reserved).value.0, c, sl);
            q == r && SiteDone(sf, sl, f1, l1, ks, ks)
    decreases items, 0
  {
    hide ExecItemBlock, ExecBlock, InlineBlock, Static, StaticBlock, BlockOrdered, WeakStep, AgreeOutside, NamesWaiting, SiteDone;
    var INest(b, rest) := items;
    StaticNest(h, b, rest, reserved, ks, c, sf.locals.Keys);
    NestRuns(host, h, b, sf, sl, ks, c);
    var (x, f1) := ExecItemBlock(host, h, b, c, sf);
    var (y, l1) := ExecBlock(host, InlineBlock(h, b).value, c, sl);
    if x.None? {
      WeakWaiting(sf, sl, f1, l1, ks, InlineItems(h, rest, reserved).value.1 - reserved);
      RestRuns(host, h, rest, reserved, sf, sl, f1, l1, ks, c);
    } else {
      WeakDone(sf, sl, f1, l1, ks);
    }
  }

  lemma {:induction false} BranchThenRest(host: Host, h: Helper, items: Items, reserved: set<string>, sf: State, sl: State, ks: set<string>, c: set<string>)
    requires items.IBranch? && BlockOk(host, h, items, reserved, sf, sl, ks, c)
    requires InlineItems(h, items, reserved).Some?
    requires NamesWaiting(InlineItems(h, items, reserved).value.1 - reserved, sl, ks)
    ensures var (r, f1) := ExecItems(host, h, items, c, sf);
            var (q, l1) := ExecAll(host, InlineItems(h, items, reserved).value.0, c, sl);
            q == r && SiteDone(sf, sl, f1, l1, ks, ks)
    decreases items, 0
  {
    hide Eval, ExecItemBlock, ExecBlock, InlineBlock, Static, StaticBlock, BlockOrdered, WeakStep, AgreeOutside, NamesWaiting, SiteDone, Free, FreeNames, MentionsItems, DeclaredWithin;
    var IBranch(e, t, f, rest) := items;
    StaticBranch(h, e, t, f, rest, reserved, ks, c, sf.locals.Keys);
    WeakenExpr(host, e, c, sf, sl, ks);
    var (v, f1) := Eval(host, e, c, sf);
    var (u, l1) := Eval(host, e, c, sl);
    if v.Yields? {
      WeakWaiting(sf, sl, f1, l1, ks, InlineItems(h, rest, reserved).value.1 - reserved);
      var body := if Truthy(v.value) then t else f;
      NestRuns(host, h, body, f1, l1, ks, c);
      var (x, f2) := ExecItemBlock(host, h, body, c, f1);
      var (y, l2) := ExecBlock(host, InlineBlock(h, body).value, c, l1);
      WeakTrans(sf, sl, f1, l1, f2, l2, ks);
      if x.None? {
        WeakWaiting(sf, sl, f2, l2, ks, InlineItems(h, rest, reserved).value.1 - reserved);
        RestRuns(host, h, rest, reserved, sf, sl, f2, l2, ks, c);
      } else {
        WeakDone(sf, sl, f2, l2, ks);
      }
    } else {
      WeakDone(sf, sl, f1, l1, ks);
    }
  }

  /** The site itself, and that what follows it starts as it must. */
  lemma SiteThenRest(host: Host, h: Helper, args: Exprs, rest: Items, reserved: set<string>, sf: State, sl: State, ks: set<string>, c: set<string>)
    requires BlockOk(host, h, ISite(args, rest), reserved, sf, sl, ks, c)
    requires InlineItems(h, ISite(args, rest), reserved).Some?
    requires NamesWaiting(InlineItems(h, ISite(args, rest), reserved).value.1 - reserved, sl, ks)
    ensures var plan := PlanSite(h, args, reserved, true);
            && Inserted(plan).Some? && InlineItems(h, rest, plan.reserved).Some?
            && var (r, f1) := ExecCall(host, h, args, c, sf);
               var (q, l1) := ExecAll(host, Inserted(plan).value, c, sl);
               && q == r && SiteDone(sf, sl, f1, l1, ks, NewNames(plan, reserved))
               && (r.None? ==> BlockOk(host, h, rest, plan.reserved, f1, l1, ks, c) &&
                               NamesWaiting(InlineItems(h, rest, plan.reserved).value.1 - plan.reserved, l1, ks))
  {
    var plan := PlanSite(h, args, reserved, true);
    SiteInserts(h, args, reserved);
    InlineItemsTotal(h, rest, plan.reserved);
    SiteIsOk(host, h, args, rest, reserved, sf, sl, ks, c);
    SiteRuns(host, h, args, reserved, sf, sl, ks, c);
    var (r, f1) := ExecCall(host, h, args, c, sf);
    var (q, l1) := ExecAll(host, Inserted(plan).value, c, sl);
    if r.None? {
      RestIsOk(host, h, args, rest, reserved, sf, sl, ks, c, f1, l1);
    }
    hide PlanSite, Inserted, ExecCall, Analyzed, SiteDone, SiteOk, BlockOk, NamesWaiting, InlineItems;
  }

  lemma SiteIsOk(host: Host, h: Helper, args: Exprs, rest: Items, reserved: set<string>, sf: State, sl: State, ks: set<string>, c: set<string>)
    requires BlockOk(host, h, ISite(args, rest), reserved, sf, sl, ks, c)
    requires InlineItems(h, ISite(args, rest), reserved).Some?
    requires NamesWaiting(InlineItems(h, ISite(args, rest), reserved).value.1 - reserved, sl, ks)
    requires InlineItems(h, rest, PlanSite(h, args, reserved, true).reserved).Some?
    requires PlanSite(h, args, reserved, true).reserved <= InlineItems(h, rest, PlanSite(h, args, reserved, true).reserved).value.1
    ensures SiteOk(host, h, args, PlanSite(h, args, reserved, true), reserved, sf, sl, ks, c)
  {
    hide PlanSite, Inserted, Analyzed, AgreeOutside, CallOrdered, FreeNames, SiteClear, DeclaredWithin;
  }

  lemma RestIsOk(host: Host, h: Helper, args: Exprs, rest: Items, reserved: set<string>, sf: State, sl: State, ks: set<string>, c: set<string>,
                 f1: State, l1: State)
    requires BlockOk(host, h, ISite(args, rest), reserved, sf, sl, ks, c)
    requires InlineItems(h, ISite(args, rest), reserved).Some?
    requires NamesWaiting(InlineItems(h, ISite(args, rest), reserved).value.1 - reserved, sl, ks)
    requires reserved <= PlanSite(h, args, reserved, true).reserved
    requires ExecCall(host, h, args, c, sf) == (None, f1)
    requires SiteDone(sf, sl, f1, l1, ks, NewNames(PlanSite(h, args, reserved, true), reserved))
    ensures var after := PlanSite(h, args, reserved, true).reserved;
            && BlockOk(host, h, rest, after, f1, l1, ks, c)
            && InlineItems(h, rest, after).Some? && NamesWaiting(InlineItems(h, rest, after).value.1 - after, l1, ks)
  {
    hide PlanSite, Inserted, ExecCall, Analyzed, AgreeOutside, CallOrdered, FreeNames, SiteClear;
    var after := PlanSite(h, args, reserved, true).reserved;
    var last := InlineItems(h, rest, after).value.1;
    assert last == InlineItems(h, ISite(args, rest), reserved).value.1;
    forall y | y in last - after ensures y in ks && y in l1.locals && l1.locals[y] == None {
      assert y in last - reserved;
    }
  }

  lemma WeakThenDone(sf: State, sl: State, f1: State, l1: State, f2: State, l2: State, ks: set<string>)
    requires WeakStep(sf, sl, f1, l1, ks) && SiteDone(f1, l1, f2, l2, ks, ks)
    ensures SiteDone(sf, sl, f2, l2, ks, ks)
  {}

  lemma SiteDoneWeaken(sf: State, sl: State, f1: State, l1: State, ks: set<string>, added: set<string>)
    requires SiteDone(sf, sl, f1, l1, ks, added)
    ensures SiteDone(sf, sl, f1, l1, ks, ks)
  {}

  lemma SiteDoneTrans(sf: State, sl: State, f1: State, l1: State, f2: State, l2: State, ks: set<string>, added: set<string>)
    requires SiteDone(sf, sl, f1, l1, ks, added) && SiteDone(f1, l1, f2, l2, ks, ks)
    ensures SiteDone(sf, sl, f2, l2, ks, ks)
  {}

  lemma {:induction false} DeclaredMentioned(h: Helper, items: Items)
    ensures DeclaredItems(items) <= MentionsItems(h, items)
  {
    match items
    case INil =>
    case IPlain(_, rest) => DeclaredMentioned(h, rest);
    case ISite(_, rest) => DeclaredMentioned(h, rest);
    case INest(_, rest) => DeclaredMentioned(h, rest);
    case IBranch(_, _, _, rest) => DeclaredMentioned(h, rest);
  }

  lemma {:induction false} DeclaredIsWithin(items: Items)
    ensures DeclaredItems(items) <= DeclaredWithin(items)
  {
    match items
    case INil =>
    case IPlain(_, rest) => DeclaredIsWithin(rest);
    case ISite(_, rest) => DeclaredIsWithin(rest);
    case INest(_, rest) => DeclaredIsWithin(rest);
    case IBranch(_, _, _, rest) => DeclaredIsWithin(rest);
  }

  lemma {:induction false} InlineDeclares(h: Helper, items: Items, reserved: set<string>)
    requires Analyzed(h) && DeclaredItems(items) <= reserved && InlineItems(h, items, reserved).Some?
    ensures Declared(InlineItems(h, items, reserved).value.0) == DeclaredItems(items) + (InlineItems(h, items, reserved).value.1 - reserved)
  {
    match items
    case INil =>
    case IPlain(s, rest) => InlineDeclares(h, rest, reserved);
    case ISite(args, rest) =>
      var plan := PlanSite(h, args, reserved, true);
      SiteInserts(h, args, reserved);
      InlineItemsTotal(h, rest, plan.reserved);
      InlineDeclares(h, rest, plan.reserved);
      DeclaredAppend(Inserted(plan).value, InlineItems(h, rest, plan.reserved).value.0);
    case INest(_, rest) => InlineDeclares(h, rest, reserved);
    case IBranch(_, _, _, rest) => InlineDeclares(h, rest, reserved);
  }

  /** Strict-mode inlining is exact. In any block, inlining every call of an analyzed helper,
      in nested blocks too, gives a block with the same effects in the same order, the same
      exceptions and the same variables afterwards, provided no generated name captures or is
      captured, no free name of the helper is bound around a call, and the order comparisons
      whose guards are inverted have ordered operands. */
  lemma {:induction false} StrictInliningIsExact(host: Host, h: Helper, items: Items, c: set<string>, st: State)
    requires Analyzed(h) && ArityOk(h, items) && BlockClear(h, items)
    requires FreeNames(h) !! c + st.locals.Keys + DeclaredWithin(items)
    requires BlockOrdered(host, h, items, c, st)
    ensures InlineBlock(h, items).Some?
    ensures ExecBlock(host, InlineBlock(h, items).value, c, st) == ExecItemBlock(host, h, items, c, st)
    decreases items, 3
  {
    hide InlineItems, Analyzed, ArityOk, BlockClear, BlockOrdered, BlockOk, NamesWaiting, FreeNames, DeclaredWithin, DeclaredItems, MentionsItems, SiteDone, ExecItems, Enter, Leave, ExecAll, Declared;
    var reserved := MentionsItems(h, items);
    var own := DeclaredItems(items);
    InlinedNames(h, items, reserved, own);
    var (code, after) := InlineItems(h, items, reserved).value;
    var ks := after - reserved;
    var sf := st.(locals := Enter(st.locals, own));
    var sl := st.(locals := Enter(st.locals, own + ks));
    BlockStarts(host, h, items, reserved, st, own, ks, c);
    ItemsRun(host, h, items, reserved, sf, sl, ks, c);
    LeaveAlike(st, own, ks, ExecItems(host, h, items, c, sf).1, ExecAll(host, code, c, sl).1);
  }

  /** The inlined code declares what the block declares and the new names, all of them apart. */
  lemma InlinedNames(h: Helper, items: Items, reserved: set<string>, own: set<string>)
    requires Analyzed(h) && BlockClear(h, items) && reserved == MentionsItems(h, items) && own == DeclaredItems(items)
    ensures InlineItems(h, items, reserved).Some?
    ensures var (code, after) := InlineItems(h, items, reserved).value;
            && Declared(code) == own + (after - reserved) && own <= reserved && after - reserved !! FreeNames(h)
  {
    InlineItemsTotal(h, items, reserved);
    DeclaredMentioned(h, items);
    InlineDeclares(h, items, reserved);
    NewNamesNotFree(h, items, reserved);
    hide Analyzed, InlineItems, MentionsItems, DeclaredItems, FreeNames;
  }

  /** The scopes a block starts in, before and after inlining. */
  lemma BlockStarts(host: Host, h: Helper, items: Items, reserved: set<string>, st: State, own: set<string>, ks: set<string>, c: set<string>)
    requires Analyzed(h) && ArityOk(h, items) && BlockClear(h, items) && BlockOrdered(host, h, items, c, st)
    requires FreeNames(h) !! c + st.locals.Keys + DeclaredWithin(items)
    requires own == DeclaredItems(items) && reserved == MentionsItems(h, items) && own <= reserved
    requires ks !! reserved && ks !! FreeNames(h)
    ensures BlockOk(host, h, items, reserved, st.(locals := Enter(st.locals, own)), st.(locals := Enter(st.locals, own + ks)), ks, c)
    ensures NamesWaiting(ks, st.(locals := Enter(st.locals, own + ks)), ks)
  {
    DeclaredIsWithin(items);
    hide Analyzed, SitesClear, CallsOrdered, FreeNames, Enter, DeclaredWithin, MentionsItems, ArityOk;
  }

  /** Leaving the block forgets the new names. */
  lemma LeaveAlike(st: State, own: set<string>, ks: set<string>, f1: State, l1: State)
    requires own !! ks
    requires SiteDone(st.(locals := Enter(st.locals, own)), st.(locals := Enter(st.locals, own + ks)), f1, l1, ks, ks)
    ensures f1.world == l1.world && Leave(f1.locals, st.locals, own) == Leave(l1.locals, st.locals, own + ks)
  {
    var a, b := Leave(f1.locals, st.locals, own), Leave(l1.locals, st.locals, own + ks);
    hide Enter, Leave;
    assert a.Keys == b.Keys;
    forall x | x in a ensures a[x] == b[x] {}
  }

  lemma {:induction false} NewNamesNotFree(h: Helper, items: Items, reserved: set<string>)
    requires Analyzed(h) && SitesClear(h, items, reserved) && InlineItems(h, items, reserved).Some?
    ensures InlineItems(h, items, reserved).value.1 - reserved !! FreeNames(h)
  {
    match items
    case INil =>
    case IPlain(_, rest) => NewNamesNotFree(h, rest, reserved);
    case ISite(args, rest) =>
      var plan := PlanSite(h, args, reserved, true);
      SiteInserts(h, args, reserved);
      InlineItemsTotal(h, rest, plan.reserved);
      NewNamesNotFree(h, rest, plan.reserved);
      if h.guards == [] { GuardlessPlan(h, args, reserved); } else { GuardedPlan(h, args, reserved); }
    case INest(_, rest) => NewNamesNotFree(h, rest, reserved);
    case IBranch(_, _, _, rest) => NewNamesNotFree(h, rest, reserved);
  }
}
