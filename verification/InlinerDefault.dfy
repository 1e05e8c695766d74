/** When the default mode of the inliner is right: arguments that are evaluated before the body, and
    arguments that stay as they are until the body reads them
    (scripts/inline-functions.ts:215-271, 837-900). */
module InlinerDefault {
  import opened Basics
  import opened JsSubset
  import opened JsNames
  import opened Inversion
  import opened Inliner
  import opened InlinerProof
  import opened InlinerCapture

  // ------------------------------------------------------------- arguments

  /** Something in the expression calls or assigns. */
  predicate Acts(e: Expr) {
    match e
    case Assign(_, _) => true
    case Call(_, _) => true
    case Member(o, _) => Acts(o)
    case Not(e1) => Acts(e1)
    case Bin(_, l, r) => Acts(l) || Acts(r)
    case Paren(e1) => Acts(e1)
    case _ => false
  }

  /** Some operator is in the expression. */
  predicate Combines(e: Expr) {
    match e
    case Member(o, _) => Combines(o)
    case Paren(e1) => Combines(e1)
    case Not(_) => true
    case Bin(_, _, _) => true
    case _ => false
  }

  /** The argument has to be evaluated before the body: it does something, or it computes something
      that the body uses more than once. */
  predicate RunsFirst(h: Helper, p: string, a: Expr) {
    Acts(a) || (Uses(p, h) >= 2 && Combines(a))
  }

  lemma {:induction false} PureNeverActs(e: Expr)
    ensures IsPure(e, false) <==> !Acts(e)
    ensures !Acts(e) ==> (IsDuplicable(e, false) <==> !Combines(e))
  {
    match e
    case Member(o, _) => PureNeverActs(o);
    case Not(e1) => PureNeverActs(e1);
    case Bin(_, l, r) => PureNeverActs(l); PureNeverActs(r);
    case Paren(e1) => PureNeverActs(e1);
    case _ =>
  }

  /** The inliner hoists those arguments and evaluates in place those of unused parameters. */
  lemma RunsFirstExactly(h: Helper, p: string, a: Expr)
    ensures RunsFirst(h, p, a) <==> if Uses(p, h) > 0 then Hoisted(a, Uses(p, h), false) else EvaluatedUnused(a, false)
  {
    PureNeverActs(a);
  }

  /** Only variables nobody else can assign, combined without a call or a property. */
  predicate Settled(a: Expr, l: Locals) {
    Plain(a) && Ready(Free(a), l)
  }

  /** An argument that is not evaluated first is settled, and as a parser builds it. */
  predicate ArgsFit(h: Helper, params: seq<string>, args: Exprs, l: Locals)
    decreases |params|
  {
    if params == [] then args.ENil?
    else
      match args
      case ENil => true
      case ECons(a, more) =>
        (RunsFirst(h, params[0], a) || (Settled(a, l) && WellFormed(a, 0))) && ArgsFit(h, params[1..], more, l)
  }

  /** What the arguments evaluated before the body assign. */
  function RunWrites(h: Helper, params: seq<string>, args: Exprs): set<string> {
    if params == [] || args.ENil? then {}
    else (if RunsFirst(h, params[0], args.head) then Writes(args.head) else {}) + RunWrites(h, params[1..], args.tail)
  }

  /** The names in the other arguments. */
  function KeptNames(h: Helper, params: seq<string>, args: Exprs): set<string> {
    if params == [] || args.ENil? then {}
    else (if RunsFirst(h, params[0], args.head) then {} else Free(args.head)) + KeptNames(h, params[1..], args.tail)
  }

  lemma {:induction false} KeptInFree(h: Helper, params: seq<string>, args: Exprs)
    ensures KeptNames(h, params, args) <= FreeArgs(args)
  {
    if params != [] && args.ECons? {
      hide Uses;
      KeptInFree(h, params[1..], args.tail);
    }
  }

  /** Evaluating an expression leaves private variables it does not assign as they are. */
  lemma EvalFrame(host: Host, e: Expr, c: set<string>, s: State)
    ensures var s1 := Eval(host, e, c, s).1;
            s1.locals.Keys == s.locals.Keys && forall x :: x in s.locals && x !in Writes(e) ==> s1.locals[x] == s.locals[x]
  {
    var ws := Writes(e);
    ApplyNothing(e);
    assert Related(host, s.locals, s.locals, c, c, map[], Free(e), ws);
    SimulateExpr(host, e, map[], Free(e), ws, c, c, s, s);
  }

  /** The variables in `kept` are as they were. */
  ghost predicate Stays(kept: set<string>, l: Locals, l1: Locals) {
    l1.Keys == l.Keys && forall x :: x in kept && x in l ==> l1[x] == l[x]
  }

  lemma {:induction false} FitStays(h: Helper, params: seq<string>, args: Exprs, l: Locals, l1: Locals)
    requires ArgsFit(h, params, args, l) && Stays(KeptNames(h, params, args), l, l1)
    ensures ArgsFit(h, params, args, l1)
    decreases |params|
  {
    if params != [] && args.ECons? {
      hide Uses, WellFormed, Plain;
      FitStays(h, params[1..], args.tail, l, l1);
    }
  }

  // ----------------------------------------------------- what a plan replaces

  /** What is written for an argument that is not evaluated first. */
  function Written(a: Expr): Expr {
    if NeedsParens(a) then Paren(a) else a
  }

  lemma WrittenFacts(host: Host, a: Expr, l: Locals)
    requires Settled(a, l) && WellFormed(a, 0)
    ensures WellFormed(Written(a), 6) && Free(Written(a)) == Free(a)
    ensures Plain(Written(a)) && PlainValue(host, Written(a), l) == PlainValue(host, a, l)
  {}

  /** A temporary for each argument of a used parameter that is evaluated first; the others are
      written in place. */
  ghost predicate LatePlan(h: Helper, params: seq<string>, args: Exprs, reserved: set<string>, plan: ArgPlan) {
    && (forall p :: p in plan.th <==> p in params && Uses(p, h) > 0)
    && (forall p :: p in plan.th ==> WellFormed(plan.th[p], 6))
    && (forall p :: p in plan.th ==> Free(plan.th[p]) <= Declared(plan.prefix) + KeptNames(h, params, args))
    && (forall p :: p in plan.th && plan.th[p].Var? ==> plan.th[p].x in Declared(plan.prefix) + KeptNames(h, params, args))
    && Declared(plan.prefix) !! reserved && plan.reserved == reserved + Declared(plan.prefix)
    && Declared(plan.prefix) <= Images(plan.th)
  }

  lemma {:induction false} LatePlanFacts(h: Helper, params: seq<string>, args: Exprs, reserved: set<string>, l: Locals)
    requires forall i, j :: 0 <= i < j < |params| ==> params[i] != params[j]
    requires ArgsFit(h, params, args, l)
    ensures LatePlan(h, params, args, reserved, PlanArgs(h, params, args, reserved, false))
    decreases |params|
  {
    hide Uses, LatePlan, Settled, WellFormed, Hoisted, EvaluatedUnused, RunsFirst, Fresh;
    if params == [] {
      LatePlanNone(h, args, reserved);
    } else {
      assert params == [params[0]] + params[1..];
      var more := if args.ENil? then ENil else args.tail;
      var plan := PlanArgs(h, params, args, reserved, false);
      if args.ECons? { RunsFirstExactly(h, params[0], args.head); }
      if args.ECons? && Uses(params[0], h) > 0 && RunsFirst(h, params[0], args.head) {
        var temp := Fresh(TempBase(params[0]), reserved);
        LatePlanFacts(h, params[1..], more, reserved + {temp}, l);
        LatePlanTemp(h, params, args, reserved, temp, PlanArgs(h, params[1..], more, reserved + {temp}, false));
      } else {
        LatePlanFacts(h, params[1..], more, reserved, l);
        var rest := PlanArgs(h, params[1..], more, reserved, false);
        if Uses(params[0], h) == 0 {
          LatePlanUnused(h, params, args, reserved, plan, rest);
        } else {
          LatePlanWritten(h, params, args, reserved, rest, l);
        }
      }
    }
  }

  lemma LatePlanNone(h: Helper, args: Exprs, reserved: set<string>)
    ensures LatePlan(h, [], args, reserved, ArgPlan(SNil, map[], reserved))
  {}

  lemma LatePlanTemp(h: Helper, params: seq<string>, args: Exprs, reserved: set<string>, temp: string, rest: ArgPlan)
    requires params != [] && params[0] !in params[1..] && Uses(params[0], h) > 0 && args.ECons? && RunsFirst(h, params[0], args.head)
    requires temp !in reserved && LatePlan(h, params[1..], args.tail, reserved + {temp}, rest)
    ensures LatePlan(h, params, args, reserved, ArgPlan(SCons(Decl(temp, args.head), rest.prefix), map[params[0] := Var(temp)] + rest.th, rest.reserved))
  {
    hide Uses, RunsFirst;
    var one: Subst := map[params[0] := Var(temp)];
    assert params == [params[0]] + params[1..];
    ImagesOfUnion(one, rest.th);
    assert one[params[0]] == Var(temp) && temp in Images(one);
  }

  lemma LatePlanWritten(h: Helper, params: seq<string>, args: Exprs, reserved: set<string>, rest: ArgPlan, l: Locals)
    requires params != [] && params[0] !in params[1..] && Uses(params[0], h) > 0
    requires args.ECons? ==> !RunsFirst(h, params[0], args.head) && Settled(args.head, l) && WellFormed(args.head, 0)
    requires LatePlan(h, params[1..], if args.ENil? then ENil else args.tail, reserved, rest)
    ensures LatePlan(h, params, args, reserved, rest.(th := map[params[0] := if args.ENil? then Lit(Undefined) else Written(args.head)] + rest.th))
  {
    hide Uses, RunsFirst;
    var image := if args.ENil? then Lit(Undefined) else Written(args.head);
    var one: Subst := map[params[0] := image];
    assert params == [params[0]] + params[1..];
    assert WellFormed(image, 6) && Free(image) <= KeptNames(h, params, args);
    hide WellFormed, Settled;
    ImagesOfUnion(one, rest.th);
  }

  lemma LatePlanUnused(h: Helper, params: seq<string>, args: Exprs, reserved: set<string>, plan: ArgPlan, rest: ArgPlan)
    requires params != [] && Uses(params[0], h) == 0
    requires LatePlan(h, params[1..], if args.ENil? then ENil else args.tail, reserved, rest)
    requires plan.th == rest.th && plan.reserved == rest.reserved && Declared(plan.prefix) == Declared(rest.prefix)
    ensures LatePlan(h, params, args, reserved, plan)
  {
    hide Uses, RunsFirst, WellFormed;
    assert params == [params[0]] + params[1..];
  }

  // -------------------------------------------------------------- the prefix

  lemma {:induction false} MissingPlan(h: Helper, params: seq<string>, reserved: set<string>)
    ensures var plan := PlanArgs(h, params, ENil, reserved, false);
            plan.prefix == SNil && forall p :: p in plan.th ==> p in params && plan.th[p] == Lit(Undefined)
  {
    hide Uses;
    if params != [] {
      assert params == [params[0]] + params[1..];
      MissingPlan(h, params[1..], reserved);
    }
  }

  lemma MissingDone(host: Host, h: Helper, params: seq<string>, reserved: set<string>, sf: State, sl: State, ks: set<string>)
    requires sf.world == sl.world && AgreeOutside(sf.locals, sl.locals, ks)
    ensures var plan := PlanArgs(h, params, ENil, reserved, false);
            plan.prefix == SNil && PrefixDone(host, params, plan.th, ks, sf, sl, Ok([]), sf, None, sl)
  {
    MissingPlan(h, params, reserved);
    BindMissing(params);
    hide PlanArgs, Bind;
  }

  /** The arguments at a call, what comes after the first of them, and the new names of the site. */
  ghost predicate Reads(h: Helper, params: seq<string>, args: Exprs, reserved: set<string>, kept: set<string>, ks: set<string>, sf: State, sl: State) {
    && (forall i, j :: 0 <= i < j < |params| ==> params[i] != params[j])
    && ArgsFit(h, params, args, sf.locals)
    && KeptNames(h, params, args) <= kept && RunWrites(h, params, args) !! kept
    && ks !! FreeArgs(args) + kept
    && sf.world == sl.world && AgreeOutside(sf.locals, sl.locals, ks)
    && Declared(PlanArgs(h, params, args, reserved, false).prefix) <= ks * sl.locals.Keys
  }

  /** The prefix does what evaluating the arguments does: then every replacement holds the value its
      parameter is bound to, and what the kept arguments read is as it was. */
  lemma {:induction false} LatePrefix(host: Host, h: Helper, params: seq<string>, args: Exprs, reserved: set<string>, kept: set<string>, ks: set<string>, c: set<string>, sf: State, sl: State)
    requires Reads(h, params, args, reserved, kept, ks, sf, sl)
    ensures var plan := PlanArgs(h, params, args, reserved, false);
            var (vs, f1) := EvalArgs(host, args, c, sf);
            var (r, l1) := ExecAll(host, plan.prefix, c, sl);
            PrefixDone(host, params, plan.th, ks, sf, sl, vs, f1, r, l1) && Stays(kept, sf.locals, f1.locals)
    decreases |params|, 1
  {
    hide Uses, PrefixDone, RunsFirst;
    match args
    case ENil => MissingDone(host, h, params, reserved, sf, sl, ks);
    case ECons(a, more) =>
      if !RunsFirst(h, params[0], a) {
        LateKept(host, h, params, a, more, reserved, kept, ks, c, sf, sl);
      } else if Uses(params[0], h) > 0 {
        LateTemp(host, h, params, a, more, reserved, kept, ks, c, sf, sl);
      } else {
        LateRun(host, h, params, a, more, reserved, kept, ks, c, sf, sl);
      }
  }

  /** After an argument that is evaluated first, the rest is read as before. */
  lemma ReadsOn(host: Host, h: Helper, params: seq<string>, a: Expr, more: Exprs, reserved: set<string>, after: set<string>, kept: set<string>, ks: set<string>,
                sf: State, sl: State, f0: State, l0: State)
    requires params != [] && Reads(h, params, ECons(a, more), reserved, kept, ks, sf, sl) && RunsFirst(h, params[0], a)
    requires f0.world == l0.world && AgreeOutside(f0.locals, l0.locals, ks) && l0.locals.Keys == sl.locals.Keys
    requires f0.locals.Keys == sf.locals.Keys && forall x :: x in sf.locals && x !in Writes(a) ==> f0.locals[x] == sf.locals[x]
    requires Declared(PlanArgs(h, params[1..], more, after, false).prefix) <= Declared(PlanArgs(h, params, ECons(a, more), reserved, false).prefix)
    ensures Reads(h, params[1..], more, after, kept, ks, f0, l0) && Stays(kept, sf.locals, f0.locals)
  {
    hide Uses, AgreeOutside, PlanArgs, Acts, Combines, WellFormed, Settled;
    FitStays(h, params[1..], more, sf.locals, f0.locals);
  }

  lemma {:induction false} LateRun(host: Host, h: Helper, params: seq<string>, a: Expr, more: Exprs, reserved: set<string>, kept: set<string>, ks: set<string>, c: set<string>, sf: State, sl: State)
    requires params != [] && Reads(h, params, ECons(a, more), reserved, kept, ks, sf, sl) && RunsFirst(h, params[0], a) && Uses(params[0], h) == 0
    ensures var plan := PlanArgs(h, params, ECons(a, more), reserved, false);
            var (vs, f1) := EvalArgs(host, ECons(a, more), c, sf);
            var (r, l1) := ExecAll(host, plan.prefix, c, sl);
            PrefixDone(host, params, plan.th, ks, sf, sl, vs, f1, r, l1) && Stays(kept, sf.locals, f1.locals)
    decreases |params|, 0
  {
    hide Uses, Images, Reads, ArgsFit, WeakStep, Free, FreeArgs, Carried, Bind, RunsFirst, EvaluatedUnused;
    RunsFirstExactly(h, params[0], a);
    EvalFrame(host, a, c, sf);
    ReadsWeaken(host, h, params, a, more, reserved, kept, ks, c, sf, sl);
    var (x, f0) := Eval(host, a, c, sf);
    var (y, l0) := Eval(host, a, c, sl);
    WeakMeans(sf, sl, f0, l0, ks);
    if x.Yields? {
      ReadsOn(host, h, params, a, more, reserved, reserved, kept, ks, sf, sl, f0, l0);
      LatePrefix(host, h, params[1..], more, reserved, kept, ks, c, f0, l0);
      var (vs, f1) := EvalArgs(host, more, c, f0);
      var rest := PlanArgs(h, params[1..], more, reserved, false);
      if vs.Ok? { UnusedCarried(host, params, x.value, vs.value, rest.th, ExecAll(host, rest.prefix, c, l0).1.locals); }
    } else {
      ThrownStays(host, h, params, a, more, reserved, kept, ks, sf, sl, f0);
    }
  }

  lemma ThrownStays(host: Host, h: Helper, params: seq<string>, a: Expr, more: Exprs, reserved: set<string>, kept: set<string>, ks: set<string>, sf: State, sl: State, f0: State)
    requires params != [] && Reads(h, params, ECons(a, more), reserved, kept, ks, sf, sl) && RunsFirst(h, params[0], a)
    requires f0.locals.Keys == sf.locals.Keys && forall x :: x in sf.locals && x !in Writes(a) ==> f0.locals[x] == sf.locals[x]
    ensures Stays(kept, sf.locals, f0.locals)
  {
    hide Uses, AgreeOutside, PlanArgs, ArgsFit, RunsFirst;
  }

  lemma ReadsWeaken(host: Host, h: Helper, params: seq<string>, a: Expr, more: Exprs, reserved: set<string>, kept: set<string>, ks: set<string>, c: set<string>, sf: State, sl: State)
    requires params != [] && Reads(h, params, ECons(a, more), reserved, kept, ks, sf, sl)
    ensures var (x, f0) := Eval(host, a, c, sf);
            var (y, l0) := Eval(host, a, c, sl);
            x == y && WeakStep(sf, sl, f0, l0, ks)
  {
    hide Uses, AgreeOutside, PlanArgs, ArgsFit, RunsFirst, WeakStep, Eval;
    WeakenExpr(host, a, c, sf, sl, ks);
  }

  lemma WeakMeans(sf: State, sl: State, f0: State, l0: State, ks: set<string>)
    requires WeakStep(sf, sl, f0, l0, ks)
    ensures f0.world == l0.world && AgreeOutside(f0.locals, l0.locals, ks) && l0.locals.Keys == sl.locals.Keys && f0.locals.Keys == sf.locals.Keys
    ensures forall y :: y in ks && y in sf.locals ==> f0.locals[y] == sf.locals[y]
    ensures forall y :: y in ks && y in sl.locals ==> l0.locals[y] == sl.locals[y]
  {}

  lemma {:induction false} LateTemp(host: Host, h: Helper, params: seq<string>, a: Expr, more: Exprs, reserved: set<string>, kept: set<string>, ks: set<string>, c: set<string>, sf: State, sl: State)
    requires params != [] && Reads(h, params, ECons(a, more), reserved, kept, ks, sf, sl) && RunsFirst(h, params[0], a) && Uses(params[0], h) > 0
    ensures var plan := PlanArgs(h, params, ECons(a, more), reserved, false);
            var (vs, f1) := EvalArgs(host, ECons(a, more), c, sf);
            var (r, l1) := ExecAll(host, plan.prefix, c, sl);
            PrefixDone(host, params, plan.th, ks, sf, sl, vs, f1, r, l1) && Stays(kept, sf.locals, f1.locals)
    decreases |params|, 0
  {
    hide Uses, Reads, ArgsFit, PrefixDone, WeakStep, AgreeOutside, Images, Fresh, Eval, LatePlan, Free, FreeArgs, Writes;
    var temp := Fresh(TempBase(params[0]), reserved);
    var one: Subst := map[params[0] := Var(temp)];
    var rest := PlanArgs(h, params[1..], more, reserved + {temp}, false);
    TempImages(h, params, a, more, reserved, temp, kept, ks, sf, sl);
    EvalFrame(host, a, c, sf);
    ReadsWeaken(host, h, params, a, more, reserved, kept, ks, c, sf, sl);
    var (x, f0) := Eval(host, a, c, sf);
    var (y, l0) := Eval(host, a, c, sl);
    if x.Yields? {
      var l1 := l0.(locals := l0.locals[temp := Some(x.value)]);
      HoistState(sf, sl, f0, l0, ks, temp, x.value);
      ReadsOn(host, h, params, a, more, reserved, reserved + {temp}, kept, ks, sf, sl, f0, l1);
      LatePrefix(host, h, params[1..], more, reserved + {temp}, kept, ks, c, f0, l1);
      var (vs, f2) := EvalArgs(host, more, c, f0);
      var (r, l2) := ExecAll(host, rest.prefix, c, l1);
      HoistDone(host, params, temp, x.value, rest.th, ks, sf, sl, f0, l0, vs, f2, r, l2);
    } else {
      HoistThrows(host, params, one + rest.th, ks, sf, sl, x.error, f0, l0);
      ThrownStays(host, h, params, a, more, reserved, kept, ks, sf, sl, f0);
    }
  }

  lemma TempImages(h: Helper, params: seq<string>, a: Expr, more: Exprs, reserved: set<string>, temp: string, kept: set<string>, ks: set<string>, sf: State, sl: State)
    requires params != [] && Reads(h, params, ECons(a, more), reserved, kept, ks, sf, sl) && RunsFirst(h, params[0], a) && Uses(params[0], h) > 0
    requires temp == Fresh(TempBase(params[0]), reserved)
    ensures var plan := PlanArgs(h, params, ECons(a, more), reserved, false);
      var rest := PlanArgs(h, params[1..], more, reserved + {temp}, false);
      && plan == ArgPlan(SCons(Decl(temp, a), rest.prefix), map[params[0] := Var(temp)] + rest.th, rest.reserved)
      && Declared(rest.prefix) <= Declared(plan.prefix) && temp in ks && temp in sl.locals
      && temp !in Images(rest.th) && params[0] !in rest.th && params[0] !in params[1..]
      && Images(map[params[0] := Var(temp)] + rest.th) == {temp} + Images(rest.th)
  {
    hide AgreeOutside, ArgsFit, Uses, Fresh, LatePlan, Images, Hoisted, RunsFirst;
    RunsFirstExactly(h, params[0], a);
    var rest := PlanArgs(h, params[1..], more, reserved + {temp}, false);
    FitRest(h, params, a, more, sf.locals);
    LatePlanFacts(h, params[1..], more, reserved + {temp}, sf.locals);
    assert params == [params[0]] + params[1..];
    assert temp in ks && temp !in FreeArgs(more);
    hide PlanArgs, Reads, FreeArgs;
    TempIsNew(h, params[1..], more, reserved + {temp}, temp, rest);
    TempImage(params[0], temp, rest.th);
  }

  lemma FitRest(h: Helper, params: seq<string>, a: Expr, more: Exprs, l: Locals)
    requires params != [] && ArgsFit(h, params, ECons(a, more), l)
    ensures ArgsFit(h, params[1..], more, l)
  {
    hide Uses, WellFormed, Settled, RunsFirst;
  }

  lemma TempIsNew(h: Helper, params: seq<string>, args: Exprs, reserved: set<string>, temp: string, plan: ArgPlan)
    requires LatePlan(h, params, args, reserved, plan) && temp in reserved && temp !in FreeArgs(args)
    ensures temp !in Images(plan.th) && forall p :: p in plan.th ==> p in params
  {
    hide Uses, WellFormed, KeptNames;
    KeptInFree(h, params, args);
  }

  lemma TempImage(p: string, temp: string, rest: Subst)
    requires p !in rest
    ensures Images(map[p := Var(temp)] + rest) == {temp} + Images(rest)
  {
    var one: Subst := map[p := Var(temp)];
    ImagesOfUnion(one, rest);
    assert one[p] == Var(temp) && Images(one) == {temp};
  }

  lemma {:induction false} LateKept(host: Host, h: Helper, params: seq<string>, a: Expr, more: Exprs, reserved: set<string>, kept: set<string>, ks: set<string>, c: set<string>, sf: State, sl: State)
    requires params != [] && Reads(h, params, ECons(a, more), reserved, kept, ks, sf, sl) && !RunsFirst(h, params[0], a)
    ensures var plan := PlanArgs(h, params, ECons(a, more), reserved, false);
            var (vs, f1) := EvalArgs(host, ECons(a, more), c, sf);
            var (r, l1) := ExecAll(host, plan.prefix, c, sl);
            PrefixDone(host, params, plan.th, ks, sf, sl, vs, f1, r, l1) && Stays(kept, sf.locals, f1.locals)
    decreases |params|, 0
  {
    hide Uses, Reads, ArgsFit, PrefixDone, AgreeOutside, Images, LatePlan, Free, FreeArgs, Carried, Bind, Stays;
    KeptReads(host, h, params, a, more, reserved, kept, ks, c, sf, sl);
    LatePrefix(host, h, params[1..], more, reserved, kept, ks, c, sf, sl);
    var (vs, f1) := EvalArgs(host, more, c, sf);
    var rest := PlanArgs(h, params[1..], more, reserved, false);
    var (r, l1) := ExecAll(host, rest.prefix, c, sl);
    var v := PlainValue(host, a, sf.locals);
    if Uses(params[0], h) > 0 {
      KeptDone(host, params, a, v, rest.th, kept, ks, sf, sl, vs, f1, r, l1);
    } else {
      KeptUnused(host, params, v, rest.th, ks, sf, sl, vs, f1, r, l1);
    }
  }

  lemma KeptReads(host: Host, h: Helper, params: seq<string>, a: Expr, more: Exprs, reserved: set<string>, kept: set<string>, ks: set<string>, c: set<string>, sf: State, sl: State)
    requires params != [] && Reads(h, params, ECons(a, more), reserved, kept, ks, sf, sl) && !RunsFirst(h, params[0], a)
    ensures Settled(a, sf.locals) && WellFormed(a, 0) && Free(a) <= kept && ks !! Free(a)
    ensures Eval(host, a, c, sf) == (Yields(PlainValue(host, a, sf.locals)), sf)
    ensures Reads(h, params[1..], more, reserved, kept, ks, sf, sl) && params[0] !in params[1..]
    ensures forall p :: p in PlanArgs(h, params[1..], more, reserved, false).th ==> p in params[1..]
    ensures var (plan, rest) := (PlanArgs(h, params, ECons(a, more), reserved, false), PlanArgs(h, params[1..], more, reserved, false));
      plan == if Uses(params[0], h) > 0 then rest.(th := map[params[0] := Written(a)] + rest.th) else rest
  {
    hide Uses, AgreeOutside, RunsFirst, Hoisted, EvaluatedUnused;
    RunsFirstExactly(h, params[0], a);
    LatePlanFacts(h, params[1..], more, reserved, sf.locals);
    EvalPlain(host, a, c, sf);
  }

  lemma KeptUnused(host: Host, params: seq<string>, v: Value, rest: Subst, ks: set<string>, sf: State, sl: State,
                   vs: Result<seq<Value>, Value>, f1: State, r: Completion, l1: State)
    requires params != [] && PrefixDone(host, params[1..], rest, ks, sf, sl, vs, f1, r, l1)
    ensures PrefixDone(host, params, rest, ks, sf, sl, if vs.Ok? then Ok([v] + vs.value) else vs, f1, r, l1)
  {
    hide AgreeOutside, Carried, Bind, Images;
    if vs.Ok? { UnusedCarried(host, params, v, vs.value, rest, l1.locals); }
  }

  /** An argument written in place still has the value it had when it was passed. */
  lemma KeptDone(host: Host, params: seq<string>, a: Expr, v: Value, rest: Subst, kept: set<string>, ks: set<string>, sf: State, sl: State,
                 vs: Result<seq<Value>, Value>, f1: State, r: Completion, l1: State)
    requires params != [] && params[0] !in params[1..] && (forall p :: p in rest ==> p in params[1..])
    requires Settled(a, sf.locals) && WellFormed(a, 0) && v == PlainValue(host, a, sf.locals) && Free(a) <= kept && ks !! Free(a)
    requires PrefixDone(host, params[1..], rest, ks, sf, sl, vs, f1, r, l1) && Stays(kept, sf.locals, f1.locals)
    ensures PrefixDone(host, params, map[params[0] := Written(a)] + rest, ks, sf, sl, if vs.Ok? then Ok([v] + vs.value) else vs, f1, r, l1)
  {
    var one: Subst := map[params[0] := Written(a)];
    assert params[0] !in rest;
    ImagesOfUnion(one, rest);
    hide Images;
    if vs.Ok? {
      KeptValue(host, a, sf.locals, f1.locals, l1.locals, kept, ks);
      KeptCarried(host, params, Written(a), v, rest, vs.value, l1.locals);
    }
  }

  lemma KeptValue(host: Host, a: Expr, l: Locals, f1: Locals, l1: Locals, kept: set<string>, ks: set<string>)
    requires Settled(a, l) && WellFormed(a, 0) && Free(a) <= kept && ks !! Free(a) && Stays(kept, l, f1) && AgreeOutside(f1, l1, ks)
    ensures Fixed(host, Written(a), l1, Some(PlainValue(host, a, l)))
  {
    WrittenFacts(host, a, l);
    hide WellFormed, Plain, PlainValue, Written, Free;
    forall y | y in Free(a) ensures y in l1 && l1[y] == l[y] {
      assert y !in ks;
    }
    FixedSame(host, Written(a), l, l1, Some(PlainValue(host, a, l)));
  }

  lemma KeptCarried(host: Host, params: seq<string>, image: Expr, v: Value, rest: Subst, vs: seq<Value>, l: Locals)
    requires params != [] && params[0] !in params[1..] && (forall p :: p in rest ==> p in params[1..]) && Carried(host, rest, Bind(params[1..], vs), l)
    requires Fixed(host, image, l, Some(v))
    ensures Carried(host, map[params[0] := image] + rest, Bind(params, [v] + vs), l)
  {
    BindKeys(params[1..], vs);
    assert ([v] + vs)[1..] == vs;
    var th: Subst := map[params[0] := image] + rest;
    var bound := Bind(params, [v] + vs);
    forall p | p in th ensures CarriedAt(host, th, bound, l, p) {
      if p != params[0] {
        assert CarriedAt(host, rest, Bind(params[1..], vs), l, p);
        assert p !in map[params[0] := Some(v)];
      }
    }
  }

  // -------------------------------------------------------------- the theorem

  /** What a default-mode call site needs: arguments that fit, none of which reads late what another
      assigns first; free names of the helper that are not bound around the call; and, in the block
      the code is put into, the names the site adds, before their declarations have run. */
  ghost predicate DefaultSite(h: Helper, args: Exprs, reserved: set<string>, c: set<string>, sf: State, sl: State) {
    && ArgsFit(h, h.params, args, sf.locals)
    && RunWrites(h, h.params, args) !! KeptNames(h, h.params, args)
    && FreeNames(h) !! c + sl.locals.Keys
    && sf.world == sl.world
    && var added := NewNames(PlanSite(h, args, reserved, false), reserved);
       && added !! FreeArgs(args) && AgreeOutside(sf.locals, sl.locals, added)
       && forall y :: y in added ==> y in sl.locals && sl.locals[y] == None
  }

  /** The call and the inserted code end alike; they differ in the new names of the site alone. */
  ghost predicate SameRun(call: (Completion, State), code: (Completion, State), added: set<string>) {
    call.0 == code.0 && call.1.world == code.1.world && AgreeOutside(call.1.locals, code.1.locals, added)
  }

  lemma LateScopes(host: Host, h: Helper, args: Exprs, reserved: set<string>, values: seq<Value>, f: Locals, l: Locals, c: set<string>)
    requires Analyzed(h) && ArgsFit(h, h.params, args, f) && FreeNames(h) !! c + l.Keys
    requires Carried(host, PlanArgs(h, h.params, args, reserved, false).th, Bind(h.params, values), l)
    ensures SiteScopes(host, h, PlanArgs(h, h.params, args, reserved, false).th, Bind(h.params, values), l, c)
  {
    LatePlanFacts(h, h.params, args, reserved, f);
    BindKeys(h.params, values);
    var th := PlanArgs(h, h.params, args, reserved, false).th;
    forall p | p in ParamSet(h) && p in OuterNames(h) ensures p in th { UsesAreNames(p, h); }
    assert Bind(h.params, values).Keys == ParamSet(h);
  }

  lemma LateInserts(h: Helper, args: Exprs, reserved: set<string>, l: Locals)
    requires Analyzed(h) && ArgsFit(h, h.params, args, l) && h.guards != []
    ensures var plan := PlanArgs(h, h.params, args, reserved, false);
            var site := PlanSite(h, args, reserved, false);
            && LatePlan(h, h.params, args, reserved, plan)
            && site.th == plan.th && NewNames(site, reserved) == Declared(plan.prefix)
            && Inserted(site) == Some(Append(plan.prefix, SCons(If(Condition(h.guards, plan.th), ApplyAll(h.tail, plan.th), SNil), SNil)))
  {
    LatePlanFacts(h, h.params, args, reserved, l);
    var th := PlanArgs(h, h.params, args, reserved, false).th;
    assert Primaries(th);
    ConditionParses(h.guards, th);
  }

  /** The start of a site: its arguments, read with its own new names waiting. */
  lemma SiteReads(h: Helper, args: Exprs, reserved: set<string>, c: set<string>, sf: State, sl: State)
    requires Analyzed(h) && DefaultSite(h, args, reserved, c, sf, sl)
    requires Declared(PlanArgs(h, h.params, args, reserved, false).prefix) <= NewNames(PlanSite(h, args, reserved, false), reserved)
    ensures Reads(h, h.params, args, reserved, KeptNames(h, h.params, args), NewNames(PlanSite(h, args, reserved, false), reserved), sf, sl)
  {
    KeptInFree(h, h.params, args);
    hide PlanSite, PlanArgs, ArgsFit, AgreeOutside, FreeNames;
  }

  /** Default-mode inlining of a guarded helper is exact at such a call, provided the tail captures
      nothing of what replaces the parameters: same effects, same exceptions, same variables. */
  lemma DefaultSiteIsExact(host: Host, h: Helper, args: Exprs, reserved: set<string>, c: set<string>, sf: State, sl: State)
    requires Analyzed(h) && h.guards != [] && DefaultSite(h, args, reserved, c, sf, sl)
    requires CaptureFreeBlock(h.tail, PlanSite(h, args, reserved, false).th)
    requires CallOrdered(host, h, args, c, sf)
    ensures var site := PlanSite(h, args, reserved, false);
            Inserted(site).Some? && SameRun(ExecCall(host, h, args, c, sf), ExecAll(host, Inserted(site).value, c, sl), NewNames(site, reserved))
  {
    var plan := PlanArgs(h, h.params, args, reserved, false);
    var th := plan.th;
    var ks := NewNames(PlanSite(h, args, reserved, false), reserved);
    LateInserts(h, args, reserved, sf.locals);
    SiteReads(h, args, reserved, c, sf, sl);
    LatePrefix(host, h, h.params, args, reserved, KeptNames(h, h.params, args), ks, c, sf, sl);
    var (vs, f1) := EvalArgs(host, args, c, sf);
    var (q, l1) := ExecAll(host, plan.prefix, c, sl);
    var guarded := If(Condition(h.guards, th), ApplyAll(h.tail, th), SNil);
    ExecAppend(host, plan.prefix, SCons(guarded, SNil), c, sl);
    ExecOne(host, guarded, c, l1);
    StaysFit(h, args, reserved, c, sf, sl, f1);
    hide PlanSite, Inserted, PlanArgs, Exec, ExecAll, EvalArgs, Append, Images, NewNames, AgreeOutside, RunHelper, FreeNames, Frame, Bind, PrefixDone, Condition, ApplyAll, DefaultSite, Reads, LatePlan, ArgsFit;
    PrefixMeans(host, h.params, th, ks, sf, sl, vs, f1, q, l1);
    if vs.Ok? {
      LateScopes(host, h, args, reserved, vs.value, f1.locals, l1.locals, c);
      hide Analyzed, SiteScopes, GuardsOrdered, Carried, CaptureFreeBlock;
      GuardedBody(host, h, th, vs.value, l1, c);
    }
  }

  /** The arguments fit after they have been evaluated. */
  lemma StaysFit(h: Helper, args: Exprs, reserved: set<string>, c: set<string>, sf: State, sl: State, f1: State)
    requires DefaultSite(h, args, reserved, c, sf, sl) && Stays(KeptNames(h, h.params, args), sf.locals, f1.locals)
    ensures ArgsFit(h, h.params, args, f1.locals) && FreeNames(h) !! c + sl.locals.Keys
  {
    hide PlanSite, ArgsFit, AgreeOutside, FreeNames;
    FitStays(h, h.params, args, sf.locals, f1.locals);
  }

  /** So it is when no block of the tail declares a name that an argument written in place has, or a
      new name of the site. */
  lemma DefaultSiteByNames(host: Host, h: Helper, args: Exprs, reserved: set<string>, c: set<string>, sf: State, sl: State)
    requires Analyzed(h) && h.guards != [] && DefaultSite(h, args, reserved, c, sf, sl)
    requires KeptNames(h, h.params, args) + NewNames(PlanSite(h, args, reserved, false), reserved) !! Declared(h.tail) + Nested(h.tail)
    requires CallOrdered(host, h, args, c, sf)
    ensures var site := PlanSite(h, args, reserved, false);
            Inserted(site).Some? && SameRun(ExecCall(host, h, args, c, sf), ExecAll(host, Inserted(site).value, c, sl), NewNames(site, reserved))
  {
    hide CallOrdered, ExecAll, ExecCall, SameRun;
    LateInserts(h, args, reserved, sf.locals);
    AwayBlock(h.tail, PlanSite(h, args, reserved, false).th);
    hide PlanSite, Inserted, Analyzed, DefaultSite;
    DefaultSiteIsExact(host, h, args, reserved, c, sf, sl);
  }

  /** The capture condition of a default-mode site says that the tail, once the arguments are in
      place, has lost no free occurrence. */
  lemma DefaultCaptureExactly(h: Helper, args: Exprs, reserved: set<string>, c: set<string>, sf: State, sl: State)
    requires Analyzed(h) && h.guards != [] && DefaultSite(h, args, reserved, c, sf, sl)
    ensures var th := PlanSite(h, args, reserved, false).th;
            CaptureFreeBlock(h.tail, th) <==> forall y :: NothingLost(y, h.tail, th)
  {
    LateInserts(h, args, reserved, sf.locals);
    hide PlanSite, Inserted;
    CaptureFreeExactly(h.tail, PlanSite(h, args, reserved, false).th);
  }

  // ---------------------------------------------------- a helper without guards

  lemma SplicePlan(h: Helper, args: Exprs, reserved: set<string>, l: Locals)
    requires Analyzed(h) && h.guards == [] && ArgsFit(h, h.params, args, l) && FreeArgs(args) <= reserved
    ensures var plan := PlanArgs(h, h.params, args, reserved, false);
            var (lo, after) := PlanLocals(h.tail, plan.reserved);
            var site := PlanSite(h, args, reserved, false);
            && LatePlan(h, h.params, args, reserved, plan) && LocalsPlan(h.tail, plan.reserved, lo, after)
            && site.th == plan.th + lo && DistinctRenames(h, plan.th, lo)
            && NewNames(site, reserved) == Declared(plan.prefix) + TailNames(h, lo) && Declared(plan.prefix) !! TailNames(h, lo)
            && Inserted(site) == Some(Append(plan.prefix, ApplyAll(h.tail, plan.th + lo)))
  {
    var plan := PlanArgs(h, h.params, args, reserved, false);
    var (lo, after) := PlanLocals(h.tail, plan.reserved);
    LatePlanFacts(h, h.params, args, reserved, l);
    LocalsPlanFacts(h.tail, plan.reserved);
    KeptInFree(h, h.params, args);
    hide ArgsFit, Images, Uses, WellFormed;
    RenamesDiffer(h, plan.th, lo, plan.reserved, after);
    assert NewNames(PlanSite(h, args, reserved, false), reserved) == Declared(plan.prefix) + TailNames(h, lo);
  }

  /** The locals of the spliced tail, still waiting behind the prefix. */
  lemma SpliceReady(h: Helper, th: Subst, lo: Subst, temps: set<string>, taken: set<string>, after: set<string>, ks: set<string>, sl: Locals, l1: Locals)
    requires LocalsPlan(h.tail, taken, lo, after) && ks == temps + TailNames(h, lo) && temps !! TailNames(h, lo)
    requires Images(th) * ks <= temps && (forall y :: y in ks ==> y in sl && sl[y] == None)
    requires l1.Keys == sl.Keys && forall y :: y in ks && y in sl && y !in Images(th) ==> l1[y] == sl[y]
    ensures LocalsReady(h, lo, l1)
  {
    forall x | x in Declared(h.tail) ensures Rename(x, lo) in l1 && l1[Rename(x, lo)] == None {
      if x in lo { assert lo[x].x in Images(lo); }
      assert Rename(x, lo) in TailNames(h, lo);
    }
  }

  /** Of the replacements only temporaries are new names. */
  lemma NewImages(h: Helper, args: Exprs, reserved: set<string>, plan: ArgPlan, lo: Subst, ks: set<string>)
    requires LatePlan(h, h.params, args, reserved, plan) && ks == Declared(plan.prefix) + TailNames(h, lo) && ks !! FreeArgs(args)
    ensures Images(plan.th) * ks <= Declared(plan.prefix)
  {
    KeptInFree(h, h.params, args);
    hide Uses, WellFormed, KeptNames, TailNames;
    forall y | y in Images(plan.th) && y in ks ensures y in Declared(plan.prefix) {
      var p :| p in plan.th && plan.th[p].Var? && plan.th[p].x == y;
      assert y in Declared(plan.prefix) + KeptNames(h, h.params, args);
    }
  }

  /** Default-mode inlining of a helper without guards: the tail is spliced into the block, its
      locals renamed where they are taken, and only new names change beside what the call changes. */
  lemma DefaultSpliceIsExact(host: Host, h: Helper, args: Exprs, reserved: set<string>, c: set<string>, sf: State, sl: State)
    requires Analyzed(h) && h.guards == [] && DefaultSite(h, args, reserved, c, sf, sl) && FreeArgs(args) <= reserved
    requires CaptureFreeAll(h.tail, PlanSite(h, args, reserved, false).th)
    ensures var site := PlanSite(h, args, reserved, false);
            Inserted(site).Some? && SameRun(ExecCall(host, h, args, c, sf), ExecAll(host, Inserted(site).value, c, sl), NewNames(site, reserved))
  {
    var plan := PlanArgs(h, h.params, args, reserved, false);
    var th := plan.th;
    var (lo, after) := PlanLocals(h.tail, plan.reserved);
    var ks := NewNames(PlanSite(h, args, reserved, false), reserved);
    SplicePlan(h, args, reserved, sf.locals);
    SiteReads(h, args, reserved, c, sf, sl);
    LatePrefix(host, h, h.params, args, reserved, KeptNames(h, h.params, args), ks, c, sf, sl);
    var (vs, f1) := EvalArgs(host, args, c, sf);
    var (q, l1) := ExecAll(host, plan.prefix, c, sl);
    ExecAppend(host, plan.prefix, ApplyAll(h.tail, th + lo), c, sl);
    StaysFit(h, args, reserved, c, sf, sl, f1);
    NewImages(h, args, reserved, plan, lo, ks);
    hide PlanSite, Inserted, PlanArgs, PlanLocals, RunHelper, ExecAll, EvalArgs, Append, Images, NewNames, AgreeOutside, FreeNames, Frame, Bind, PrefixDone, ApplyAll, Reads, LatePlan, ArgsFit, TailNames, Stays;
    PrefixMeans(host, h.params, th, ks, sf, sl, vs, f1, q, l1);
    if vs.Ok? {
      LateScopes(host, h, args, reserved, vs.value, f1.locals, l1.locals, c);
      SpliceReady(h, th, lo, Declared(plan.prefix), plan.reserved, after, ks, sl.locals, l1.locals);
      hide Analyzed, SiteScopes, LocalsReady, LocalsPlan, Carried, CaptureFreeAll, DistinctRenames, DefaultSite;
      GuardlessBody(host, h, th, lo, vs.value, l1, c);
      SplicedSame(f1.locals, l1.locals, ExecAll(host, ApplyAll(h.tail, th + lo), c, l1).1.locals, ks, TailNames(h, lo));
    }
  }

  lemma SplicedSame(f: Locals, l: Locals, l1: Locals, ks: set<string>, tail: set<string>)
    requires AgreeOutside(f, l, ks) && tail <= ks && l1.Keys == l.Keys && forall y :: y in l && y !in tail ==> l1[y] == l[y]
    ensures AgreeOutside(f, l1, ks)
  {}
}
