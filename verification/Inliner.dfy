/** Replacing the calls of one helper in one block (scripts/inline-functions.ts:172-287,
    418-507, 751-946). */
module Inliner {
  import opened Basics
  import opened Decimals
  import opened JsSubset
  import opened JsNames
  import opened Inversion

  /** A void helper with its name: leading guard clauses `if (g) return;`, then the tail. */
  datatype Helper = Helper(name: string, params: seq<string>, guards: seq<Expr>, tail: Stmts)

  // ----------------------------------------------------------- fresh names

  function Candidate(base: string, i: nat): string {
    base + ("_" + Decimal(i))
  }

  lemma CandidatesDiffer(base: string, i: nat, j: nat)
    requires Candidate(base, i) == Candidate(base, j)
    ensures i == j
  {
    assert Candidate(base, i)[|base| + 1..] == Decimal(i);
    assert Candidate(base, j)[|base| + 1..] == Decimal(j);
    DecimalInjective(i, j);
  }

  ghost function Tried(base: string, i: nat): set<string> {
    set j | 2 <= j < i :: Candidate(base, j)
  }

  /** `freshName`: the base itself, or the first of base_2, base_3, … that is not taken. */
  method FreshName(base: string, taken: set<string>) returns (name: string)
    ensures name == Fresh(base, taken)
  {
    if base !in taken { return base; }
    var i := 2;
    while Candidate(base, i) in taken
      invariant i >= 2 && FreshFrom(base, taken, i) == FreshFrom(base, taken, 2)
      decreases taken - Tried(base, i)
    {
      TriedGrows(base, taken, i);
      i := i + 1;
    }
    name := Candidate(base, i);
  }

  lemma TriedGrows(base: string, taken: set<string>, i: nat)
    requires i >= 2 && Candidate(base, i) in taken
    ensures taken - Tried(base, i + 1) < taken - Tried(base, i)
  {
    if Candidate(base, i) in Tried(base, i) {
      var j :| 2 <= j < i && Candidate(base, j) == Candidate(base, i);
      CandidatesDiffer(base, j, i);
    }
    assert Candidate(base, i) in Tried(base, i + 1);
    assert Candidate(base, i) in taken - Tried(base, i);
  }

  function FreshFrom(base: string, taken: set<string>, i: nat): (name: string)
    requires i >= 2
    ensures name !in taken
    decreases taken - Tried(base, i)
  {
    if Candidate(base, i) in taken then
      TriedGrows(base, taken, i);
      FreshFrom(base, taken, i + 1)
    else Candidate(base, i)
  }

  function Fresh(base: string, taken: set<string>): (name: string)
    ensures name !in taken
  {
    if base !in taken then base else FreshFrom(base, taken, 2)
  }

  // --------------------------------------------------------- classification

  function Unwrap(e: Expr): Expr {
    match e
    case Paren(e1) => Unwrap(e1)
    case _ => e
  }

  predicate IsPure(e: Expr, strict: bool) {
    match e
    case Lit(_) => true
    case Var(_) => true
    case Assign(_, _) => false
    case Call(_, _) => false
    case Member(o, _) => !strict && IsPure(o, strict)
    case Not(e1) => IsPure(e1, strict)
    case Bin(_, l, r) => IsPure(l, strict) && IsPure(r, strict)
    case Paren(e1) => IsPure(e1, strict)
  }

  predicate IsDuplicable(e: Expr, strict: bool) {
    match e
    case Lit(_) => true
    case Var(_) => true
    case Member(o, _) => !strict && IsDuplicable(o, strict)
    case Paren(e1) => IsDuplicable(e1, strict)
    case _ => false
  }

  predicate NeedsParens(e: Expr) {
    e.Bin? || e.Not? || e.Assign?
  }

  /** How many references to the parameter `x` the helper's body has. */
  function Uses(x: string, h: Helper): nat {
    GuardUses(x, h.guards) + (if x in Declared(h.tail) then 0 else CountAll(x, h.tail))
  }

  function GuardUses(x: string, guards: seq<Expr>): nat {
    if guards == [] then 0 else GuardUses(x, guards[..|guards| - 1]) + Count(x, guards[|guards| - 1])
  }

  function Count(x: string, e: Expr): nat {
    match e
    case Lit(_) => 0
    case Var(y) => if x == y then 1 else 0
    case Assign(y, e1) => (if x == y then 1 else 0) + Count(x, e1)
    case Call(f, args) => Count(x, f) + CountArgs(x, args)
    case Member(o, _) => Count(x, o)
    case Not(e1) => Count(x, e1)
    case Bin(_, l, r) => Count(x, l) + Count(x, r)
    case Paren(e1) => Count(x, e1)
  }

  function CountArgs(x: string, es: Exprs): nat {
    match es
    case ENil => 0
    case ECons(e, rest) => Count(x, e) + CountArgs(x, rest)
  }

  function CountAll(x: string, ss: Stmts): nat
    decreases ss, 0
  {
    match ss
    case SNil => 0
    case SCons(s, rest) => CountStmt(x, s) + CountAll(x, rest)
  }

  function CountStmt(x: string, s: Stmt): nat
    decreases s, 0
  {
    match s
    case Decl(y, e) => (if x == y then 1 else 0) + Count(x, e)
    case Do(e) => Count(x, e)
    case If(e, t, f) => Count(x, e) + CountBlock(x, t) + CountBlock(x, f)
    case Block(b) => CountBlock(x, b)
  }

  function CountBlock(x: string, ss: Stmts): nat
    decreases ss, 1
  {
    if x in Declared(ss) then 0 else CountAll(x, ss)
  }

  // ------------------------------------------------------------------ plans

  /** Hoisted statements, what replaces each parameter, and the names now taken. */
  datatype ArgPlan = ArgPlan(prefix: Stmts, th: Subst, reserved: set<string>)

  function TempBase(p: string): string {
    "__inl_" + p
  }

  predicate Hoisted(a: Expr, uses: nat, strict: bool) {
    strict || !IsPure(a, strict) || (uses >= 2 && !IsDuplicable(a, strict))
  }

  predicate EvaluatedUnused(a: Expr, strict: bool) {
    !IsPure(a, strict) || (strict && !Unwrap(a).Lit?)
  }

  function PlanArgs(h: Helper, params: seq<string>, args: Exprs, reserved: set<string>, strict: bool): ArgPlan {
    if params == [] then ArgPlan(SNil, map[], reserved)
    else
      var p := params[0];
      var uses := Uses(p, h);
      match args
      case ENil =>
        var rest := PlanArgs(h, params[1..], ENil, reserved, strict);
        if uses == 0 then rest else rest.(th := map[p := Lit(Undefined)] + rest.th)
      case ECons(a, more) =>
        if uses == 0 then
          var rest := PlanArgs(h, params[1..], more, reserved, strict);
          if EvaluatedUnused(a, strict) then rest.(prefix := SCons(Do(a), rest.prefix)) else rest
        else if Hoisted(a, uses, strict) then
          var temp := Fresh(TempBase(p), reserved);
          var rest := PlanArgs(h, params[1..], more, reserved + {temp}, strict);
          ArgPlan(SCons(Decl(temp, a), rest.prefix), map[p := Var(temp)] + rest.th, rest.reserved)
        else
          var rest := PlanArgs(h, params[1..], more, reserved, strict);
          rest.(th := map[p := if NeedsParens(a) then Paren(a) else a] + rest.th)
  }

  /** `renameCollidingLocals`: new names for the tail's own declarations that are taken. */
  function PlanLocals(tail: Stmts, taken: set<string>): (Subst, set<string>) {
    match tail
    case SNil => (map[], taken)
    case SCons(Decl(x, _), rest) =>
      if x !in taken then PlanLocals(rest, taken + {x})
      else
        var renamed := Fresh(x, taken);
        var (th, after) := PlanLocals(rest, taken + {renamed});
        (map[x := Var(renamed)] + th, after)
    case SCons(_, rest) => PlanLocals(rest, taken)
  }

  /** `condition` is text, as it is inserted into the file. */
  datatype Replacement = Replacement(prefix: Stmts, condition: Option<Text>, tail: Stmts, th: Subst, reserved: set<string>)

  function PlanSite(h: Helper, args: Exprs, reserved: set<string>, strict: bool): Replacement {
    var plan := PlanArgs(h, h.params, args, reserved, strict);
    if h.guards != [] then
      Replacement(plan.prefix, Some(CombineGuards(h.guards, plan.th)), ApplyAll(h.tail, plan.th), plan.th, plan.reserved)
    else
      var (locals, after) := PlanLocals(h.tail, plan.reserved);
      var th := plan.th + locals;
      Replacement(plan.prefix, None, ApplyAll(h.tail, th), th, after)
  }

  /** The statements that take the place of the call; the condition is read back from its text. */
  function Inserted(r: Replacement): Option<Stmts> {
    if r.condition.None? then Some(Append(r.prefix, r.tail))
    else
      var cond := ParseExpr(r.condition.value);
      if cond.None? then None else Some(Append(r.prefix, SCons(If(cond.value, r.tail, SNil), SNil)))
  }

  /** `buildReplacement`, with the loops and the growing set of the original. */
  method BuildReplacement(h: Helper, args: Exprs, reserved: set<string>, strict: bool) returns (r: Replacement)
    ensures r == PlanSite(h, args, reserved, strict)
  {
    var prefix, th, taken, remaining := SNil, map[], reserved, args;
    for i := 0 to |h.params|
      invariant PlanArgs(h, h.params, args, reserved, strict) ==
                Combined(prefix, th, PlanArgs(h, h.params[i..], remaining, taken, strict))
    {
      ghost var rest := PlanArgs(h, h.params[i..], remaining, taken, strict);
      assert h.params[i..][1..] == h.params[i + 1..];
      var p := h.params[i];
      var uses := Uses(p, h);
      if remaining.ENil? {
        if uses > 0 {
          CombinedStep(prefix, th, SNil, map[p := Lit(Undefined)], PlanArgs(h, h.params[i + 1..], ENil, taken, strict));
          th := th + map[p := Lit(Undefined)];
        }
      } else {
        var a, more := remaining.head, remaining.tail;
        if uses == 0 {
          if EvaluatedUnused(a, strict) {
            CombinedStep(prefix, th, SCons(Do(a), SNil), map[], PlanArgs(h, h.params[i + 1..], more, taken, strict));
            prefix := Append(prefix, SCons(Do(a), SNil));
          }
        } else if Hoisted(a, uses, strict) {
          var temp := FreshName(TempBase(p), taken);
          taken := taken + {temp};
          CombinedStep(prefix, th, SCons(Decl(temp, a), SNil), map[p := Var(temp)], PlanArgs(h, h.params[i + 1..], more, taken, strict));
          prefix := Append(prefix, SCons(Decl(temp, a), SNil));
          th := th + map[p := Var(temp)];
        } else {
          var text := if NeedsParens(a) then Paren(a) else a;
          CombinedStep(prefix, th, SNil, map[p := text], PlanArgs(h, h.params[i + 1..], more, taken, strict));
          th := th + map[p := text];
        }
        remaining := more;
      }
    }
    AppendNil(prefix);
    assert th + map[] == th;
    if h.guards != [] {
      r := Replacement(prefix, Some(CombineGuards(h.guards, th)), ApplyAll(h.tail, th), th, taken);
    } else {
      var locals, after := RenameCollidingLocals(h.tail, taken);
      var all := th + locals;
      r := Replacement(prefix, None, ApplyAll(h.tail, all), all, after);
    }
  }

  ghost function Combined(prefix: Stmts, th: Subst, rest: ArgPlan): ArgPlan {
    ArgPlan(Append(prefix, rest.prefix), th + rest.th, rest.reserved)
  }

  lemma {:induction false} AppendNil(a: Stmts)
    ensures Append(a, SNil) == a
  {
    match a
    case SNil =>
    case SCons(_, rest) => AppendNil(rest);
  }

  lemma {:induction false} AppendAssociative(a: Stmts, b: Stmts, c: Stmts)
    ensures Append(Append(a, b), c) == Append(a, Append(b, c))
  {
    match a
    case SNil =>
    case SCons(_, rest) => AppendAssociative(rest, b, c);
  }

  lemma CombinedStep(prefix: Stmts, th: Subst, one: Stmts, entry: Subst, rest: ArgPlan)
    ensures Combined(Append(prefix, one), th + entry, rest) ==
            Combined(prefix, th, ArgPlan(Append(one, rest.prefix), entry + rest.th, rest.reserved))
    ensures Append(prefix, SNil) == prefix && th + map[] == th && map[] + rest.th == rest.th
  {
    AppendAssociative(prefix, one, rest.prefix);
    AppendNil(prefix);
    assert (th + entry) + rest.th == th + (entry + rest.th);
  }

  method RenameCollidingLocals(tail: Stmts, start: set<string>) returns (th: Subst, taken: set<string>)
    ensures (th, taken) == PlanLocals(tail, start)
  {
    th, taken := map[], start;
    var todo := tail;
    assert map[] + PlanLocals(tail, start).0 == PlanLocals(tail, start).0;
    while todo.SCons?
      invariant var (rest, after) := PlanLocals(todo, taken); PlanLocals(tail, start) == (th + rest, after)
      decreases todo
    {
      if todo.first.Decl? {
        var original := todo.first.x;
        if original !in taken {
          taken := taken + {original};
        } else {
          var renamed := FreshName(original, taken);
          taken := taken + {renamed};
          ghost var rest := PlanLocals(todo.rest, taken).0;
          assert (th + map[original := Var(renamed)]) + rest == th + (map[original := Var(renamed)] + rest);
          th := th + map[original := Var(renamed)];
        }
      }
      todo := todo.rest;
    }
    assert th + map[] == th;
  }
}
