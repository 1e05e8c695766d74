/** Where the inliner's claim stops: the hypotheses of `StrictInliningIsExact` are needed. */
module InlinerLimits {
  import opened Basics
  import opened JsSubset
  import opened JsNames
  import opened Inversion
  import opened Inliner
  import opened InlinerProof
  import opened InlinerCapture

  /** One comparison as the only guard: the printed condition means its complement if and
      only if the comparison is an equality or the operands are ordered. */
  lemma SingleFlipIsExact(h: Host, op: Comparator, l: Expr, r: Expr, th: Subst, c: set<string>, s: State)
    requires Eval(h, Apply(l, th), c, s).0.Yields?
    requires Eval(h, Apply(r, th), c, Eval(h, Apply(l, th), c, s).1).0.Yields?
    ensures var a := Eval(h, Apply(l, th), c, s);
            var b := Eval(h, Apply(r, th), c, a.1);
            var guards := [Bin(Compare(op), l, r)];
            Inverts(RunGuards(h, guards, th, c, s), Eval(h, Condition(guards, th), c, s)) <==>
            (OpLevel(Compare(op)) == 3 || h.order(a.0.value, b.0.value) != Unordered)
  {
    var guards := [Bin(Compare(op), l, r)];
    assert guards[..0] == [];
    var (a, s1) := Eval(h, Apply(l, th), c, s);
    var (b, s2) := Eval(h, Apply(r, th), c, s1);
    FlipIsExact(h, op, a.value, b.value);
  }

  /** `computeFreeNames`: every identifier of the body that is declared nowhere in it. */
  function ComputedFreeNames(h: Helper): set<string> {
    GuardNames(h.guards) + Mentions(h.tail) - ParamSet(h) - Declared(h.tail) - Nested(h.tail)
  }

  /** The computed set misses exactly the free names that some nested block declares too. */
  lemma ComputedFreeNamesExact(h: Helper)
    requires Analyzed(h)
    ensures ComputedFreeNames(h) == FreeNames(h) - Nested(h.tail)
    ensures ComputedFreeNames(h) == FreeNames(h) <==> FreeNames(h) !! Nested(h.tail)
  {
    InnerIsLevelOrNested(h.tail);
    DeclaredInLevel(h.tail);
  }

  /** With what the script itself checks, strict-mode inlining is exact for every helper that
      does not declare one of its free names in a nested block, and whose names do not look
      generated. */
  lemma ScriptChecksSuffice(host: Host, h: Helper, items: Items, c: set<string>, st: State)
    requires Analyzed(h) && ArityOk(h, items) && NamesApart(h) && FreeNames(h) !! Nested(h.tail)
    requires ComputedFreeNames(h) !! c + st.locals.Keys + DeclaredWithin(items)
    requires BlockOrdered(host, h, items, c, st)
    ensures InlineBlock(h, items).Some?
    ensures ExecBlock(host, InlineBlock(h, items).value, c, st) == ExecItemBlock(host, h, items, c, st)
  {
    hide NamesApart, ArityOk, BlockOrdered, InlineBlock, ExecBlock, ExecItemBlock;
    ComputedFreeNamesExact(h);
    StrictInliningByNames(host, h, items, c, st);
  }

  lemma {:induction false} InnerIsLevelOrNested(ss: Stmts)
    ensures Inner(ss) <= Level(ss) + Nested(ss)
    decreases ss, 0
  {
    match ss
    case SNil =>
    case SCons(s, rest) => InnerStmtIsLevelOrNested(s); InnerIsLevelOrNested(rest);
  }

  lemma {:induction false} InnerStmtIsLevelOrNested(s: Stmt)
    ensures InnerStmt(s) <= LevelStmt(s) + NestedStmt(s)
    decreases s, 0
  {
    match s
    case If(e, t, f) => InnerIsLevelOrNested(t); InnerIsLevelOrNested(f);
    case Block(b) => InnerIsLevelOrNested(b);
    case _ =>
  }

  // ------------------------------------------------------------ counterexamples

  /** A host whose functions return `undefined` and touch nothing. */
  function QuietHost(): Host {
    Host((f, args, w) => (Yields(Undefined), w), (o, p, w) => (Yields(Undefined), w),
         (a, b) => if a == NaN || b == NaN then Unordered else Equal, (a, b) => a == b)
  }

  function One(s: Stmt): Stmts {
    SCons(s, SNil)
  }

  /** `use(a, b);` */
  function Use(a: Expr, b: Expr): Stmt {
    Do(Call(Var("use"), ECons(a, ECons(b, ENil))))
  }

  /** `use` and `g` are bound in the module (`g` false), `y` is 7 in the caller. */
  function StartWorld(): World {
    World(map[Module("use") := Ref(0), Module("g") := Bool(false), Caller("y") := Num(7)], [])
  }

  /** helper(p) { if (g) return; const <local> = 1; use(p, <local>); } */
  function SmallHelper(local: string): Helper {
    Helper("helper", ["p"], [Var("g")], SmallTail(local, Var("p")))
  }

  predicate Ordinary(local: string) {
    local != "p" && local != "g" && local != "use"
  }

  lemma EvalOne(host: Host, e: Expr, c: set<string>, s: State, v: Value)
    requires Eval(host, e, c, s) == (Yields(v), s)
    ensures EvalArgs(host, ECons(e, ENil), c, s) == (Ok([v]), s)
  {
    assert EvalArgs(host, ENil, c, s) == (Ok([]), s);
    assert [v] + [] == [v];
  }

  lemma UseRuns(host: Host, a: Expr, b: Expr, c: set<string>, s: State, v: Value, w: Value)
    requires host == QuietHost() && Eval(host, a, c, s) == (Yields(v), s) && Eval(host, b, c, s) == (Yields(w), s)
    requires "use" !in s.locals && "use" !in c && Module("use") in s.world.vars && s.world.vars[Module("use")] == Ref(0)
    ensures ExecAll(host, One(Use(a, b)), c, s) == (None, s.(world := Observe(s.world, Called(Ref(0), [v, w]))))
  {
    EvalOne(host, b, c, s, w);
    assert EvalArgs(host, ECons(a, ECons(b, ENil)), c, s) == (Ok([v] + [w]), s);
    assert Eval(host, Var("use"), c, s) == (Yields(Ref(0)), s);
    var call := Call(Var("use"), ECons(a, ECons(b, ENil)));
    assert [v] + [w] == [v, w];
    assert Eval(host, call, c, s) == (Yields(Undefined), s.(world := Observe(s.world, Called(Ref(0), [v, w]))));
    assert Exec(host, Do(call), c, s) == (None, s.(world := Observe(s.world, Called(Ref(0), [v, w]))));
  }

  /** `const <local> = 1; use(a, <local>);` */
  function SmallTail(local: string, a: Expr): Stmts {
    SCons(Decl(local, Lit(Num(1))), One(Use(a, Var(local))))
  }

  lemma TailDeclares(local: string, a: Expr)
    ensures Declared(SmallTail(local, a)) == {local} && DistinctDecls(SmallTail(local, a))
    ensures Nested(SmallTail(local, a)) == {} && Level(SmallTail(local, a)) == {local, "use"} + Free(a)
  {
    var use := Use(a, Var(local));
    assert Declared(One(use)) == {} && DistinctDecls(One(use));
    assert FreeArgs(ENil) == {} && Free(Var(local)) == {local};
    assert FreeArgs(ECons(Var(local), ENil)) == {local};
    assert FreeArgs(ECons(a, ECons(Var(local), ENil))) == Free(a) + {local};
    assert Free(Var("use")) == {"use"} && Free(use.e) == {"use"} + (Free(a) + {local});
    assert LevelStmt(use) == {"use"} + (Free(a) + {local});
    assert Level(One(use)) == LevelStmt(use);
    assert Nested(One(use)) == {};
  }

  lemma TailWrites(local: string, a: Expr)
    requires a.Var?
    ensures WritesLevel(SmallTail(local, a)) == {local}
  {
    var use := Use(a, Var(local));
    assert WritesArgs(ENil) == {} && Writes(Var(local)) == {};
    assert WritesArgs(ECons(Var(local), ENil)) == {};
    assert WritesArgs(ECons(a, ECons(Var(local), ENil))) == {};
    assert Writes(Var("use")) == {} && Writes(use.e) == {};
    assert WritesStmt(use) == {} && WritesLevel(One(use)) == {};
  }

  lemma SmallAnalyzed(local: string)
    requires Ordinary(local)
    ensures Analyzed(SmallHelper(local))
  {
    TailDeclares(local, Var("p"));
    TailWrites(local, Var("p"));
    assert GuardNames([Var("g")]) == {"g"} by { assert GuardNames([]) == {}; }
    assert GuardWrites([Var("g")]) == {} by { assert GuardWrites([]) == {}; }
  }

  lemma SmallGuard(f: State)
    requires f.world == StartWorld() && "g" !in f.locals
    ensures RunGuards(QuietHost(), [Var("g")], map[], {}, f) == (Passed, f)
  {
    assert [Var("g")][..0] == [];
    assert RunGuards(QuietHost(), [], map[], {}, f) == (Passed, f);
  }

  /** The call passes the caller's 7 and the helper's own 1. */
  lemma SmallCall(local: string)
    requires Ordinary(local)
    ensures ExecCall(QuietHost(), SmallHelper(local), ECons(Var("y"), ENil), {"y"}, State(StartWorld(), map[])).1.world.trace
            == [Called(Ref(0), [Num(7), Num(1)])]
  {
    var host, h := QuietHost(), SmallHelper(local);
    var st := State(StartWorld(), map[]);
    EvalOne(host, Var("y"), {"y"}, st, Num(7));
    var f := State(st.world, Frame(h, [Num(7)]));
    assert Bind([], []) == map[];
    assert Bind(["p"], [Num(7)])["p"] == Some(Num(7));
    TailDeclares(local, Var("p"));
    SmallGuard(f);
    TailRuns(local, Var("p"), {}, f, Num(7));
  }

  lemma TailRuns(local: string, a: Expr, c: set<string>, f: State, v: Value)
    requires Ordinary(local) && local in f.locals && "use" !in f.locals && "use" !in c && f.world == StartWorld()
    requires Eval(QuietHost(), a, c, f.(locals := f.locals[local := Some(Num(1))])) == (Yields(v), f.(locals := f.locals[local := Some(Num(1))]))
    ensures ExecAll(QuietHost(), SmallTail(local, a), c, f).0 == None
    ensures ExecAll(QuietHost(), SmallTail(local, a), c, f).1.world.trace == [Called(Ref(0), [v, Num(1)])]
  {
    var f1 := f.(locals := f.locals[local := Some(Num(1))]);
    UseRuns(QuietHost(), a, Var(local), c, f1, v, Num(1));
    assert Exec(QuietHost(), Decl(local, Lit(Num(1))), c, f) == (None, f1);
  }

  lemma SmallUses(local: string)
    requires Ordinary(local)
    ensures Uses("p", SmallHelper(local)) == 1
  {
    var (p, l) := (Var("p"), Var(local));
    assert CountArgs("p", ENil) == 0 && Count("p", l) == 0;
    assert CountArgs("p", ECons(l, ENil)) == 0;
    assert CountArgs("p", ECons(p, ECons(l, ENil))) == 1;
    assert Count("p", Var("use")) == 0 && Count("p", Use(p, l).e) == 1;
    assert CountStmt("p", Use(p, l)) == 1;
    assert CountAll("p", SNil) == 0;
    assert CountAll("p", One(Use(p, l))) == 1;
    assert CountStmt("p", Decl(local, Lit(Num(1)))) == 0;
    TailDeclares(local, p);
    assert GuardUses("p", [Var("g")]) == 0 by { assert GuardUses("p", []) == 0; }
  }

  lemma TailApplies(local: string, x: string)
    requires Ordinary(local)
    ensures ApplyAll(SmallTail(local, Var("p")), map["p" := Var(x)]) == SmallTail(local, Var(x))
  {
    var th: Subst := map["p" := Var(x)];
    assert ApplyArgs(ENil, th) == ENil && Apply(Var(local), th) == Var(local);
    assert ApplyArgs(ECons(Var(local), ENil), th) == ECons(Var(local), ENil);
    assert ApplyArgs(ECons(Var("p"), ECons(Var(local), ENil)), th) == ECons(Var(x), ECons(Var(local), ENil));
    assert Apply(Var("use"), th) == Var("use") && Apply(Use(Var("p"), Var(local)).e, th) == Use(Var(x), Var(local)).e;
    assert ApplyStmt(Use(Var("p"), Var(local)), th) == Use(Var(x), Var(local));
    assert ApplyAll(One(Use(Var("p"), Var(local))), th) == One(Use(Var(x), Var(local)));
  }

  /** `{ const <local> = 1; use(<local>, <local>); }` passes 1 twice. */
  lemma SmallCaptured(local: string)
    requires Ordinary(local)
    ensures ExecBlock(QuietHost(), SmallTail(local, Var(local)), {"y"}, State(StartWorld(), map[])).1.world.trace
            == [Called(Ref(0), [Num(1), Num(1)])]
  {
    TailDeclares(local, Var(local));
    TailRuns(local, Var(local), {"y"}, State(StartWorld(), Enter(map[], {local})), Num(1));
  }

  /** The guarded path never renames tail locals: in default mode `helper(y)` becomes code in
      which the argument `y` reads the helper's local `y`, and 7 turns into 1. What fails is the
      hypothesis of `DefaultSiteIsExact`. */
  lemma DefaultModeCaptures()
    ensures var (h, args, st) := (SmallHelper("y"), ECons(Var("y"), ENil), State(StartWorld(), map[]));
            var site := PlanSite(h, args, {"y", "helper"}, false);
            && Analyzed(h) && !CaptureFreeBlock(h.tail, site.th)
            && ExecCall(QuietHost(), h, args, {"y"}, st).1.world.trace == [Called(Ref(0), [Num(7), Num(1)])]
            && ExecBlock(QuietHost(), site.tail, {"y"}, st).1.world.trace == [Called(Ref(0), [Num(1), Num(1)])]
  {
    hide Analyzed, CaptureFreeBlock, PlanSite, ExecCall, ExecBlock;
    SmallAnalyzed("y");
    SmallCall("y");
    SmallPlan("y", {"y", "helper"}, false, "y");
    SmallCaptures("y");
    SmallCaptured("y");
  }

  lemma SmallCaptures(local: string)
    requires Ordinary(local)
    ensures !CaptureFreeBlock(SmallHelper(local).tail, map["p" := Var(local)])
  {
    SmallFree(local);
    hide FreeBlock, Declared;
  }

  lemma SmallPlan(local: string, reserved: set<string>, strict: bool, image: string)
    requires Ordinary(local) && image == if strict then Fresh(TempBase("p"), reserved) else "y"
    ensures PlanSite(SmallHelper(local), ECons(Var("y"), ENil), reserved, strict).tail == SmallTail(local, Var(image))
    ensures PlanSite(SmallHelper(local), ECons(Var("y"), ENil), reserved, strict).th == map["p" := Var(image)]
  {
    var h := SmallHelper(local);
    SmallUses(local);
    hide Uses, CombineGuards;
    assert h.params[1..] == [];
    var after := if strict then reserved + {image} else reserved;
    assert PlanArgs(h, [], ENil, after, strict) == ArgPlan(SNil, map[], after);
    var th := PlanArgs(h, h.params, ECons(Var("y"), ENil), reserved, strict).th;
    assert th == map["p" := Var(image)];
    TailApplies(local, image);
  }

  lemma SmallFree(local: string)
    requires Ordinary(local)
    ensures "p" in FreeBlock(SmallHelper(local).tail) && local in Declared(SmallHelper(local).tail)
  {
    TailDeclares(local, Var("p"));
  }

  lemma SmallNotApart()
    ensures !NamesApart(SmallHelper("__inl_p"))
  {
    var h := SmallHelper("__inl_p");
    SmallFree("__inl_p");
    SmallUses("__inl_p");
    hide Uses, FreeNames, Nested;
    assert "p" in h.params && TempBase("p") == "__inl_p";
    assert TempName("__inl_p", h) && "__inl_p" in OwnNames(h);
  }

  lemma SmallNotClear(local: string, reserved: set<string>)
    requires Ordinary(local) && Fresh(TempBase("p"), reserved) == local
    ensures !SiteClear(SmallHelper(local), PlanSite(SmallHelper(local), ECons(Var("y"), ENil), reserved, true))
  {
    SmallPlan(local, reserved, true, local);
    SmallFree(local);
    hide PlanSite, FreeNames, FreeBlock, Declared;
  }

  /** Taken names come from the call site's block alone, so a generated name can be one the
      helper itself declares: strict mode then passes 1 where the caller passed 7. */
  lemma GeneratedNamesCanCollide()
    ensures var (h, args, st) := (SmallHelper("__inl_p"), ECons(Var("y"), ENil), State(StartWorld(), map[]));
            var site := PlanSite(h, args, {"y", "helper"}, true);
            && Analyzed(h) && !NamesApart(h) && !SiteClear(h, site)
            && ExecCall(QuietHost(), h, args, {"y"}, st).1.world.trace == [Called(Ref(0), [Num(7), Num(1)])]
            && ExecBlock(QuietHost(), site.tail, {"y"}, st).1.world.trace == [Called(Ref(0), [Num(1), Num(1)])]
  {
    hide Analyzed, NamesApart, SiteClear, PlanSite, ExecCall, ExecBlock;
    var local := "__inl_p";
    assert TempBase("p") == local;
    SmallAnalyzed(local);
    SmallNotApart();
    SmallNotClear(local, {"y", "helper"});
    SmallCall(local);
    SmallPlan(local, {"y", "helper"}, true, local);
    SmallCaptured(local);
  }

  // ------------------------------------------------- a name free and nested

  /** helper(p) { { const z = 1; } use(p, z); } */
  function NestingHelper(): Helper {
    Helper("helper", ["p"], [], NestingTail(Var("p")))
  }

  /** `{ const z = 1; } use(a, z);` */
  function NestingTail(a: Expr): Stmts {
    SCons(Block(One(Decl("z", Lit(Num(1))))), One(Use(a, Var("z"))))
  }

  /** `use` and `z` are bound in the module; `z` is 5 there. */
  function NestingWorld(): World {
    World(map[Module("use") := Ref(0), Module("z") := Num(5)], [])
  }

  lemma NestingNames(a: Expr)
    ensures Declared(NestingTail(a)) == {} && Nested(NestingTail(a)) == {"z"}
    ensures Level(NestingTail(a)) == {"z", "use"} + Free(a) && DistinctDecls(NestingTail(a))
    ensures a.Var? ==> WritesLevel(NestingTail(a)) == {}
  {
    var use, inner := Use(a, Var("z")), One(Decl("z", Lit(Num(1))));
    assert Declared(One(use)) == {} && Nested(One(use)) == {} && DistinctDecls(One(use));
    assert FreeArgs(ENil) == {} && FreeArgs(ECons(Var("z"), ENil)) == {"z"};
    assert FreeArgs(ECons(a, ECons(Var("z"), ENil))) == Free(a) + {"z"};
    assert Free(Var("use")) == {"use"} && Free(use.e) == {"use"} + (Free(a) + {"z"});
    assert LevelStmt(use) == {"use"} + (Free(a) + {"z"}) && Level(One(use)) == LevelStmt(use);
    assert Level(inner) == {"z"} && Declared(inner) == {"z"} && Nested(inner) == {};
    assert FreeBlock(inner) == {} && LevelStmt(Block(inner)) == {} && NestedStmt(Block(inner)) == {"z"};
    if a.Var? {
      assert WritesArgs(ENil) == {} && Writes(Var("z")) == {} && WritesArgs(ECons(Var("z"), ENil)) == {} && Writes(Var("use")) == {};
      var args := ECons(a, ECons(Var("z"), ENil));
      assert Writes(a) == {} && WritesArgs(args) == Writes(a) + WritesArgs(args.tail);
      assert use.e == Call(Var("use"), args) && Writes(use.e) == Writes(Var("use")) + WritesArgs(args);
      assert WritesStmt(use) == {} && WritesLevel(One(use)) == {};
      assert WritesStmt(inner.first) == {"z"} && WritesLevel(inner) == {"z"} && WritesBlock(inner) == {};
      assert WritesStmt(Block(inner)) == {};
    }
  }

  /** `{ const z = 1; }` leaves no trace. */
  lemma NestingBlock(host: Host, c: set<string>, st: State)
    ensures Exec(host, Block(One(Decl("z", Lit(Num(1))))), c, st) == (None, st)
  {
    var inner := One(Decl("z", Lit(Num(1))));
    assert Declared(inner) == {"z"};
    var e := st.(locals := Enter(st.locals, {"z"}));
    var f := e.(locals := e.locals["z" := Some(Num(1))]);
    assert ExecAll(host, inner, c, e) == (None, f) by {
      assert Exec(host, inner.first, c, e) == (None, f);
      assert ExecAll(host, SNil, c, f) == (None, f);
    }
    assert Leave(f.locals, st.locals, {"z"}) == st.locals;
  }

  lemma NestingRuns(a: Expr, c: set<string>, st: State, v: Value, w: Value)
    requires st.world == NestingWorld() && "use" !in st.locals && "use" !in c
    requires Eval(QuietHost(), a, c, st) == (Yields(v), st) && Eval(QuietHost(), Var("z"), c, st) == (Yields(w), st)
    ensures ExecAll(QuietHost(), NestingTail(a), c, st).1.world.trace == [Called(Ref(0), [v, w])]
  {
    NestingBlock(QuietHost(), c, st);
    UseRuns(QuietHost(), a, Var("z"), c, st, v, w);
    hide Exec;
  }

  /** The computed free names miss a name that a nested block declares. The shadow check then
      lets a caller's own `z` through: the call passes the module's 5, the inlined code the
      caller's 9. */
  lemma ShadowCheckMisses()
    ensures var h := NestingHelper();
            var (f, l) := (map["p" := Some(Num(7))], map["__inl_p" := Some(Num(7)), "z" := Some(Num(9))]);
            && Analyzed(h) && ComputedFreeNames(h) == {"use"} && FreeNames(h) == {"use", "z"}
            && ComputedFreeNames(h) !! l.Keys
            && RunHelper(QuietHost(), h, [Num(7)], NestingWorld()).1.trace == [Called(Ref(0), [Num(7), Num(5)])]
            && ExecAll(QuietHost(), ApplyAll(h.tail, map["p" := Var("__inl_p")]), {}, State(NestingWorld(), l)).1.world.trace
               == [Called(Ref(0), [Num(7), Num(9)])]
  {
    hide Analyzed, ComputedFreeNames, FreeNames, RunHelper, ExecAll, ApplyAll;
    NestingAnalyzed();
    NestingFree();
    NestingCall();
    NestingInlined();
  }

  lemma NestingAnalyzed()
    ensures Analyzed(NestingHelper())
  {
    NestingNames(Var("p"));
    assert GuardNames([]) == {} && GuardWrites([]) == {};
    hide Declared, Nested, Level, WritesLevel, DistinctDecls, NestingTail;
  }

  lemma NestingFree()
    ensures FreeNames(NestingHelper()) == {"use", "z"} && ComputedFreeNames(NestingHelper()) == {"use"}
  {
    NestingNames(Var("p"));
    NestingAnalyzed();
    assert GuardNames([]) == {};
    hide Analyzed, Declared, Nested, Level, NestingTail, Mentions;
    ComputedFreeNamesExact(NestingHelper());
  }

  lemma NestingCall()
    ensures RunHelper(QuietHost(), NestingHelper(), [Num(7)], NestingWorld()).1.trace == [Called(Ref(0), [Num(7), Num(5)])]
  {
    var h := NestingHelper();
    NestingNames(Var("p"));
    var f := State(NestingWorld(), Frame(h, [Num(7)]));
    assert Bind([], []) == map[];
    assert Bind(["p"], [Num(7)])["p"] == Some(Num(7)) && Bind(["p"], [Num(7)]).Keys == {"p"};
    assert f.locals.Keys == {"p"} && f.locals["p"] == Some(Num(7));
    NestingRuns(Var("p"), {}, f, Num(7), Num(5));
    hide ExecAll;
  }

  lemma NestingInlined()
    ensures var l := map["__inl_p" := Some(Num(7)), "z" := Some(Num(9))];
            ExecAll(QuietHost(), ApplyAll(NestingTail(Var("p")), map["p" := Var("__inl_p")]), {}, State(NestingWorld(), l)).1.world.trace
            == [Called(Ref(0), [Num(7), Num(9)])]
  {
    var th: Subst := map["p" := Var("__inl_p")];
    var inner := One(Decl("z", Lit(Num(1))));
    assert ApplyAll(NestingTail(Var("p")), th) == NestingTail(Var("__inl_p")) by {
      assert ApplyArgs(ENil, th) == ENil && ApplyArgs(ECons(Var("z"), ENil), th) == ECons(Var("z"), ENil);
      assert ApplyArgs(ECons(Var("p"), ECons(Var("z"), ENil)), th) == ECons(Var("__inl_p"), ECons(Var("z"), ENil));
      assert ApplyStmt(Use(Var("p"), Var("z")), th) == Use(Var("__inl_p"), Var("z"));
      assert ApplyAll(One(Use(Var("p"), Var("z"))), th) == One(Use(Var("__inl_p"), Var("z")));
      assert Declared(inner) == {"z"} && ApplyAll(inner, th - {"z"}) == inner;
    }
    NestingRuns(Var("__inl_p"), {}, State(NestingWorld(), map["__inl_p" := Some(Num(7)), "z" := Some(Num(9))]), Num(7), Num(9));
  }

  // ---------------------------------------------------------------------- NaN

  /** helper() { if (1 < NaN) return; use(1, 1); } */
  function NaNHelper(): Helper {
    Helper("helper", [], [Bin(Compare(Lt), Lit(Num(1)), Lit(NaN))], One(Use(Lit(Num(1)), Lit(Num(1)))))
  }

  /** With NaN the guard lets the helper go on, and the inverted condition `1 >= NaN` does not:
      the call reaches `use`, the inlined code skips it. */
  lemma NaNSkipsTail()
    ensures var (h, st) := (NaNHelper(), State(StartWorld(), map[]));
            && CombineGuards(h.guards, map[]) == [TAtom(Lit(Num(1))), TOp(Compare(Ge)), TAtom(Lit(NaN))]
            && RunHelper(QuietHost(), h, [], st.world).1.trace == [Called(Ref(0), [Num(1), Num(1)])]
            && Exec(QuietHost(), If(Condition(h.guards, map[]), h.tail, SNil), {}, st) == (None, st)
  {
    var (h, st) := (NaNHelper(), State(StartWorld(), map[]));
    var g := h.guards[0];
    assert h.guards[..0] == [] && Frame(h, []) == map[];
    assert Eval(QuietHost(), g, {}, st) == (Yields(Bool(false)), st);
    assert RunGuards(QuietHost(), [], map[], {}, st) == (Passed, st);
    assert Apply(g, map[]) == g;
    assert RunGuards(QuietHost(), h.guards, map[], {}, st) == (Passed, st);
    UseRuns(QuietHost(), Lit(Num(1)), Lit(Num(1)), {}, st, Num(1), Num(1));
    assert Condition(h.guards, map[]) == Bin(Compare(Ge), Lit(Num(1)), Lit(NaN));
    assert Eval(QuietHost(), Condition(h.guards, map[]), {}, st) == (Yields(Bool(false)), st);
    EmptyBlock(QuietHost(), st, {});
  }

  // ---------------------------------------------------------------- a late read

  /** A host where the function `Ref(1)` sets the caller's `y` to 8. */
  function MovingHost(): Host {
    QuietHost().(call := (f: Value, args: seq<Value>, w: World) => (Yields(Undefined), if f == Ref(1) then w.(vars := w.vars[Caller("y") := Num(8)]) else w))
  }

  /** `use(a);` */
  function UseOne(a: Expr): Stmt {
    Do(Call(Var("use"), ECons(a, ENil)))
  }

  /** helper(p) { if (q()) return; use(p); } */
  function LateHelper(): Helper {
    Helper("helper", ["p"], [Call(Var("q"), ENil)], One(UseOne(Var("p"))))
  }

  function LateWorld(): World {
    World(map[Module("use") := Ref(0), Module("q") := Ref(1), Caller("y") := Num(7)], [])
  }

  /** The world after `q()`. */
  function MovedWorld(): World {
    World(LateWorld().vars[Caller("y") := Num(8)], [Called(Ref(1), [])])
  }

  lemma AskRuns(c: set<string>, s: State)
    requires s.world == LateWorld() && "q" !in s.locals && "q" !in c
    ensures Eval(MovingHost(), Call(Var("q"), ENil), c, s) == (Yields(Undefined), s.(world := MovedWorld()))
  {
    assert EvalArgs(MovingHost(), ENil, c, s) == (Ok([]), s);
    assert [] + [Called(Ref(1), [])] == [Called(Ref(1), [])];
  }

  lemma UseOneRuns(a: Expr, c: set<string>, s: State, v: Value)
    requires s.world == MovedWorld() && "use" !in s.locals && "use" !in c
    requires Eval(MovingHost(), a, c, s) == (Yields(v), s)
    ensures ExecAll(MovingHost(), One(UseOne(a)), c, s).1.world.trace == [Called(Ref(1), []), Called(Ref(0), [v])]
  {
    EvalOne(MovingHost(), a, c, s, v);
    var call := Call(Var("use"), ECons(a, ENil));
    var after := s.(world := Observe(s.world, Called(Ref(0), [v])));
    assert Eval(MovingHost(), Var("use"), c, s) == (Yields(Ref(0)), s);
    assert Eval(MovingHost(), call, c, s) == (Yields(Undefined), after);
    assert Exec(MovingHost(), Do(call), c, s) == (None, after);
    ExecOne(MovingHost(), Do(call), c, s);
  }

  /** A variable that a guard's call assigns is read too late in default mode: the helper gets the
      caller's 7, the inlined code reads 8. */
  lemma DefaultModeReadsLate()
    ensures var (h, st) := (LateHelper(), State(LateWorld(), map[]));
            var site := PlanSite(h, ECons(Var("y"), ENil), {"y", "helper"}, false);
            && RunHelper(MovingHost(), h, [Num(7)], st.world).1.trace == [Called(Ref(1), []), Called(Ref(0), [Num(7)])]
            && Inserted(site).Some?
            && ExecAll(MovingHost(), Inserted(site).value, {"y"}, st).1.world.trace == [Called(Ref(1), []), Called(Ref(0), [Num(8)])]
  {
    hide RunHelper, PlanSite, Inserted, ExecAll;
    LateCall();
    LatePlanned();
    LateInlined();
  }

  lemma LateCall()
    ensures RunHelper(MovingHost(), LateHelper(), [Num(7)], LateWorld()).1.trace == [Called(Ref(1), []), Called(Ref(0), [Num(7)])]
  {
    var h := LateHelper();
    var f := State(LateWorld(), Frame(h, [Num(7)]));
    assert Declared(h.tail) == {} && Bind([], []) == map[];
    assert Bind(["p"], [Num(7)]).Keys == {"p"} && f.locals.Keys == {"p"} && f.locals["p"] == Some(Num(7));
    AskRuns({}, f);
    var ask := Call(Var("q"), ENil);
    ApplyNothing(ask);
    assert h.guards[..0] == [] && RunGuards(MovingHost(), [], map[], {}, f) == (Passed, f);
    assert RunGuards(MovingHost(), h.guards, map[], {}, f) == (Passed, f.(world := MovedWorld()));
    UseOneRuns(Var("p"), {}, f.(world := MovedWorld()), Num(7));
    hide ExecAll;
  }

  lemma LateUses()
    ensures Uses("p", LateHelper()) == 1
  {
    var h := LateHelper();
    assert CountArgs("p", ENil) == 0 && CountArgs("p", ECons(Var("p"), ENil)) == 1;
    assert h.guards[..0] == [] && GuardUses("p", []) == 0 && GuardUses("p", h.guards) == 0;
    assert CountStmt("p", UseOne(Var("p"))) == 1 && CountAll("p", SNil) == 0 && CountAll("p", h.tail) == 1;
  }

  lemma LatePlanned()
    ensures var th: Subst := map["p" := Var("y")];
            Inserted(PlanSite(LateHelper(), ECons(Var("y"), ENil), {"y", "helper"}, false))
            == Some(One(If(Condition(LateHelper().guards, th), One(UseOne(Var("y"))), SNil)))
  {
    hide Uses;
    var h := LateHelper();
    var th: Subst := map["p" := Var("y")];
    var none: Subst := map[];
    LateUses();
    assert PlanArgs(h, [], ENil, {"y", "helper"}, false) == ArgPlan(SNil, none, {"y", "helper"});
    assert map["p" := Var("y")] + none == th;
    assert PlanArgs(h, h.params, ECons(Var("y"), ENil), {"y", "helper"}, false) == ArgPlan(SNil, th, {"y", "helper"});
    assert Primaries(th);
    ConditionParses(h.guards, th);
    assert ApplyArgs(ENil, th) == ENil && ApplyArgs(ECons(Var("p"), ENil), th) == ECons(Var("y"), ENil);
    assert ApplyStmt(UseOne(Var("p")), th) == UseOne(Var("y")) && ApplyAll(h.tail, th) == One(UseOne(Var("y")));
  }

  lemma EnterNothing(l: Locals)
    ensures Enter(l, {}) == l
  {}

  lemma LateInlined()
    ensures var th: Subst := map["p" := Var("y")];
            ExecAll(MovingHost(), One(If(Condition(LateHelper().guards, th), One(UseOne(Var("y"))), SNil)), {"y"}, State(LateWorld(), map[])).1.world.trace
            == [Called(Ref(1), []), Called(Ref(0), [Num(8)])]
  {
    var th: Subst := map["p" := Var("y")];
    var st := State(LateWorld(), map[]);
    var ask := Call(Var("q"), ENil);
    assert ApplyArgs(ENil, th) == ENil && Apply(ask, th) == ask;
    assert Condition(LateHelper().guards, th) == Not(Paren(ask));
    AskRuns({"y"}, st);
    var (moved, body) := (st.(world := MovedWorld()), One(UseOne(Var("y"))));
    assert Eval(MovingHost(), Paren(ask), {"y"}, st) == (Yields(Undefined), moved);
    assert Eval(MovingHost(), Not(Paren(ask)), {"y"}, st) == (Yields(Bool(true)), moved);
    assert Declared(body) == {};
    EnterNothing(moved.locals);
    UseOneRuns(Var("y"), {"y"}, moved, Num(8));
    var guarded := If(Not(Paren(ask)), body, SNil);
    ExecOne(MovingHost(), guarded, {"y"}, st);
    hide ExecAll;
  }
}
