/** Guard inversion (scripts/inline-functions.ts:128-147, 303-356): the printed condition, its
    parse under JavaScript's operator precedence, and its meaning. */
module Inversion {
  import opened Basics
  import opened JsSubset
  import opened JsNames

  // ------------------------------------------------------------------- text

  /** Source text as tokens. Names, literals, calls and member chains are single atoms. */
  datatype Token = TAtom(e: Expr) | TOpen | TClose | TNot | TOp(op: BinOp) | TAssign

  type Text = seq<Token>

  function OpLevel(op: BinOp): nat {
    match op
    case OrElse => 1
    case AndThen => 2
    case Compare(c) => if c in {StrictEq, StrictNe, LooseEq, LooseNe} then 3 else 4
  }

  function Print(e: Expr): Text {
    match e
    case Assign(x, e1) => [TAtom(Var(x)), TAssign] + Print(e1)
    case Not(e1) => [TNot] + Print(e1)
    case Bin(op, l, r) => Print(l) + ([TOp(op)] + Print(r))
    case Paren(e1) => [TOpen] + (Print(e1) + [TClose])
    case _ => [TAtom(e)]
  }

  /** `e` is what a parser makes of its own text where an operand of `level` is expected:
      0 assignment, 1 `||`, 2 `&&`, 3 equality, 4 relational, 5 unary, 6 primary. */
  predicate WellFormed(e: Expr, level: nat) {
    match e
    case Assign(_, e1) => level == 0 && WellFormed(e1, 0)
    case Not(e1) => level <= 5 && WellFormed(e1, 5)
    case Bin(op, l, r) => level <= OpLevel(op) && WellFormed(l, OpLevel(op)) && WellFormed(r, OpLevel(op) + 1)
    case Paren(e1) => WellFormed(e1, 0)
    case _ => true
  }

  lemma WellFormedBelow(e: Expr, level: nat, lower: nat)
    requires WellFormed(e, level) && lower <= level
    ensures WellFormed(e, lower)
  {}

  // ----------------------------------------------------------------- parser

  /** Recursive descent: an expression of at least `level`, and the tokens after it. */
  function Parse(level: nat, t: Text): (r: Option<(Expr, Text)>)
    requires level <= 5
    ensures r.Some? ==> |r.value.1| < |t|
    decreases |t|, 5 - level
  {
    if t == [] then None
    else if level == 0 then
      if |t| >= 2 && t[0].TAtom? && t[0].e.Var? && t[1] == TAssign then
        var r := Parse(0, t[2..]);
        if r.None? then None else Some((Assign(t[0].e.x, r.value.0), r.value.1))
      else Parse(1, t)
    else if level <= 4 then
      var r := Parse(level + 1, t);
      if r.None? then None else ParseMore(level, r.value.0, r.value.1)
    else
      match t[0]
      case TNot =>
        var r := Parse(5, t[1..]);
        if r.None? then None else Some((Not(r.value.0), r.value.1))
      case TOpen =>
        var r := Parse(0, t[1..]);
        if r.None? || r.value.1 == [] || r.value.1[0] != TClose then None
        else Some((Paren(r.value.0), r.value.1[1..]))
      case TAtom(e) => Some((e, t[1..]))
      case _ => None
  }

  /** The left-associative loop over the operators of one level. */
  function ParseMore(level: nat, left: Expr, t: Text): (r: Option<(Expr, Text)>)
    requires 1 <= level <= 4
    ensures r.Some? ==> |r.value.1| <= |t|
    decreases |t|, 6
  {
    if t != [] && t[0].TOp? && OpLevel(t[0].op) == level then
      var r := Parse(level + 1, t[1..]);
      if r.None? then None else ParseMore(level, Bin(t[0].op, left, r.value.0), r.value.1)
    else Some((left, t))
  }

  function ParseExpr(t: Text): Option<Expr> {
    var r := Parse(0, t);
    if r.Some? && r.value.1 == [] then Some(r.value.0) else None
  }

  /** What may follow an operand of `level`: no operator that binds tighter, no `=`. */
  predicate Stops(level: nat, rest: Text) {
    rest == [] || (rest[0] != TAssign && (rest[0].TOp? ==> OpLevel(rest[0].op) <= level))
  }

  lemma {:induction false} PrintNonempty(e: Expr)
    ensures Print(e) != []
  {
    if e.Bin? { PrintNonempty(e.l); }
  }

  /** No text of level 1 or more starts like an assignment. */
  lemma {:induction false} NotAnAssignment(e: Expr, rest: Text)
    requires WellFormed(e, 1) && Stops(4, rest)
    ensures var t := Print(e) + rest; |t| >= 2 && t[0].TAtom? ==> t[1] != TAssign
  {
    match e
    case Bin(op, l, r) =>
      WellFormedBelow(l, OpLevel(op), 1);
      NotAnAssignment(l, [TOp(op)] + (Print(r) + rest));
      assert Print(e) + rest == Print(l) + ([TOp(op)] + (Print(r) + rest));
    case Not(e1) =>
    case Paren(e1) =>
    case _ =>
  }

  lemma {:induction false} ParsePrint(level: nat, e: Expr, rest: Text)
    requires 1 <= level <= 4 && WellFormed(e, level) && Stops(level, rest)
    ensures Parse(level, Print(e) + rest) == ParseMore(level, e, rest)
    decreases e, 2 * (5 - level) + 1
  {
    PrintNonempty(e);
    if e.Bin? && OpLevel(e.bop) == level {
      var tail := [TOp(e.bop)] + (Print(e.r) + rest);
      assert Print(e) + rest == Print(e.l) + tail;
      ParsePrint(level, e.l, tail);
      assert tail[1..] == Print(e.r) + rest;
      ParseOperand(level, e.r, rest);
    } else {
      ParseOperand(level, e, rest);
    }
  }

  /** One operand of the level above, with nothing more to take. */
  lemma {:induction false} ParseOperand(level: nat, e: Expr, rest: Text)
    requires 1 <= level <= 4 && WellFormed(e, level + 1) && Stops(level, rest)
    ensures Parse(level + 1, Print(e) + rest) == Some((e, rest))
    decreases e, 2 * (5 - level)
  {
    if level == 4 {
      ParseUnary(e, rest);
    } else {
      ParsePrint(level + 1, e, rest);
    }
  }

  lemma {:induction false} ParseUnary(e: Expr, rest: Text)
    requires WellFormed(e, 5)
    ensures Parse(5, Print(e) + rest) == Some((e, rest))
    decreases e, 0
  {
    var t := Print(e) + rest;
    match e
    case Not(e1) =>
      assert t[1..] == Print(e1) + rest;
      ParseUnary(e1, rest);
    case Paren(e1) =>
      assert t[1..] == Print(e1) + ([TClose] + rest);
      ParseWhole(e1, [TClose] + rest);
      assert ([TClose] + rest)[1..] == rest;
    case Bin(_, _, _) =>
    case Assign(_, _) =>
    case _ => assert t[1..] == rest;
  }

  lemma {:induction false} ParseWhole(e: Expr, rest: Text)
    requires WellFormed(e, 0) && (rest == [] || rest[0] == TClose)
    ensures Parse(0, Print(e) + rest) == Some((e, rest))
    decreases e, 20
  {
    var t := Print(e) + rest;
    PrintNonempty(e);
    if e.Assign? {
      assert t[2..] == Print(e.e) + rest;
      ParseWhole(e.e, rest);
    } else {
      assert WellFormed(e, 1);
      NotAnAssignment(e, rest);
      ParsePrint(1, e, rest);
    }
  }

  /** Every well-formed expression is what its text parses to. */
  lemma ParseInvertsPrint(e: Expr)
    requires WellFormed(e, 0)
    ensures ParseExpr(Print(e)) == Some(e)
  {
    ParseWhole(e, []);
    assert Print(e) + [] == Print(e);
  }

  // --------------------------------------------------- the inverted condition

  const PREC_OR := 1
  const PREC_AND := 2
  const PREC_ATOM := 3

  datatype NegatedExpr = NegatedExpr(text: Text, prec: int)

  function Flip(op: Comparator): Comparator {
    match op
    case StrictEq => StrictNe
    case StrictNe => StrictEq
    case LooseEq => LooseNe
    case LooseNe => LooseEq
    case Lt => Ge
    case Gt => Le
    case Le => Gt
    case Ge => Lt
  }

  function LogicalPrec(e: Expr): int {
    match e
    case Paren(e1) => LogicalPrec(e1)
    case Bin(OrElse, _, _) => PREC_OR
    case Bin(AndThen, _, _) => PREC_AND
    case _ => PREC_ATOM
  }

  function Wrap(part: NegatedExpr, minPrec: int): Text {
    if part.prec < minPrec then [TOpen] + (part.text + [TClose]) else part.text
  }

  /** `negate`: the text of the complement of `e`, with parameters replaced. */
  function Negate(e: Expr, th: Subst): NegatedExpr {
    match e
    case Paren(e1) => Negate(e1, th)
    case Not(x) => NegatedExpr(Print(Apply(x, th)), LogicalPrec(x))
    case Bin(Compare(op), l, r) =>
      NegatedExpr(Print(Apply(l, th)) + ([TOp(Compare(Flip(op)))] + Print(Apply(r, th))), PREC_ATOM)
    case Bin(AndThen, l, r) =>
      NegatedExpr(Negate(l, th).text + ([TOp(OrElse)] + Negate(r, th).text), PREC_OR)
    case Bin(OrElse, l, r) =>
      NegatedExpr(Wrap(Negate(l, th), PREC_AND) + ([TOp(AndThen)] + Wrap(Negate(r, th), PREC_AND)), PREC_AND)
    case _ => NegatedExpr([TNot, TOpen] + (Print(Apply(e, th)) + [TClose]), PREC_ATOM)
  }

  /** `parts.map(wrap).join(" && ")` */
  function JoinGuards(guards: seq<Expr>, th: Subst): Text
    requires guards != []
  {
    var last := Wrap(Negate(guards[|guards| - 1], th), PREC_AND);
    if |guards| == 1 then last else JoinGuards(guards[..|guards| - 1], th) + ([TOp(AndThen)] + last)
  }

  function CombineGuards(guards: seq<Expr>, th: Subst): Text
    requires guards != []
  {
    if |guards| == 1 then Negate(guards[0], th).text else JoinGuards(guards, th)
  }

  // ------------------------------------------------ the tree that text denotes

  /** `a || b` read left to right when `b` is itself a chain. */
  function JoinOr(a: Expr, b: Expr): Expr {
    match b
    case Bin(OrElse, b1, b2) => Bin(OrElse, JoinOr(a, b1), b2)
    case _ => Bin(OrElse, a, b)
  }

  function JoinAnd(a: Expr, b: Expr): Expr {
    match b
    case Bin(AndThen, b1, b2) => Bin(AndThen, JoinAnd(a, b1), b2)
    case _ => Bin(AndThen, a, b)
  }

  function Complement(e: Expr, th: Subst): Expr
    decreases e, 0
  {
    match e
    case Paren(e1) => Complement(e1, th)
    case Not(x) => Apply(x, th)
    case Bin(Compare(op), l, r) => Bin(Compare(Flip(op)), Apply(l, th), Apply(r, th))
    case Bin(AndThen, l, r) => JoinOr(Complement(l, th), Complement(r, th))
    case Bin(OrElse, l, r) => JoinAnd(Wrapped(l, th), Wrapped(r, th))
    case _ => Not(Paren(Apply(e, th)))
  }

  function Wrapped(e: Expr, th: Subst): Expr
    decreases e, 1
  {
    if Negate(e, th).prec < PREC_AND then Paren(Complement(e, th)) else Complement(e, th)
  }

  function Condition(guards: seq<Expr>, th: Subst): Expr
    requires guards != []
  {
    if |guards| == 1 then Complement(guards[0], th) else Conjunction(guards, th)
  }

  function Conjunction(guards: seq<Expr>, th: Subst): Expr
    requires guards != []
  {
    var last := Wrapped(guards[|guards| - 1], th);
    if |guards| == 1 then last else JoinAnd(Conjunction(guards[..|guards| - 1], th), last)
  }

  lemma {:induction false} PrintJoinOr(a: Expr, b: Expr)
    requires WellFormed(a, 1) && WellFormed(b, 1)
    ensures Print(JoinOr(a, b)) == Print(a) + ([TOp(OrElse)] + Print(b))
    ensures WellFormed(JoinOr(a, b), 1)
  {
    match b
    case Bin(OrElse, b1, b2) =>
      PrintJoinOr(a, b1);
      assert Print(JoinOr(a, b)) == Print(JoinOr(a, b1)) + ([TOp(OrElse)] + Print(b2));
    case _ =>
  }

  lemma {:induction false} PrintJoinAnd(a: Expr, b: Expr)
    requires WellFormed(a, 2) && WellFormed(b, 2)
    ensures Print(JoinAnd(a, b)) == Print(a) + ([TOp(AndThen)] + Print(b))
    ensures WellFormed(JoinAnd(a, b), 2)
  {
    match b
    case Bin(AndThen, b1, b2) =>
      PrintJoinAnd(a, b1);
      assert Print(JoinAnd(a, b)) == Print(JoinAnd(a, b1)) + ([TOp(AndThen)] + Print(b2));
    case _ =>
  }

  /** Every replacement is a primary expression (parenthesized if it has to be). */
  ghost predicate Primaries(th: Subst) {
    forall x :: x in th ==> WellFormed(th[x], 6)
  }

  lemma {:induction false} WellFormedApply(e: Expr, th: Subst, level: nat)
    requires WellFormed(e, level) && Primaries(th) && level <= 6
    ensures WellFormed(Apply(e, th), level)
  {
    match e
    case Var(x) => if x in th { WellFormedBelow(th[x], 6, level); }
    case Assign(_, e1) => WellFormedApply(e1, th, 0);
    case Not(e1) => WellFormedApply(e1, th, 5);
    case Bin(op, l, r) =>
      WellFormedApply(l, th, OpLevel(op));
      WellFormedApply(r, th, OpLevel(op) + 1);
    case Paren(e1) => WellFormedApply(e1, th, 0);
    case _ =>
  }

  lemma {:induction false} NegatePrints(e: Expr, th: Subst)
    requires WellFormed(e, 0) && Primaries(th)
    ensures Negate(e, th).text == Print(Complement(e, th))
    ensures WellFormed(Complement(e, th), 1)
    ensures Negate(e, th).prec >= PREC_AND ==> WellFormed(Complement(e, th), 2)
    decreases e, 0
  {
    match e
    case Paren(e1) => NegatePrints(e1, th);
    case Not(x) => WellFormedApply(x, th, 5); WellFormedBelow(Apply(x, th), 5, 1); WellFormedBelow(Apply(x, th), 5, 2);
    case Bin(Compare(op), l, r) =>
      WellFormedApply(l, th, OpLevel(e.bop));
      WellFormedApply(r, th, OpLevel(e.bop) + 1);
    case Bin(AndThen, l, r) =>
      WellFormedBelow(l, 2, 0); WellFormedBelow(r, 3, 0);
      NegatePrints(l, th); NegatePrints(r, th);
      PrintJoinOr(Complement(l, th), Complement(r, th));
    case Bin(OrElse, l, r) =>
      WellFormedBelow(l, 1, 0); WellFormedBelow(r, 2, 0);
      WrapPrints(l, th); WrapPrints(r, th);
      PrintJoinAnd(Wrapped(l, th), Wrapped(r, th));
      WellFormedBelow(Complement(e, th), 2, 1);
    case _ => WellFormedApply(e, th, 0);
  }

  lemma {:induction false} WrapPrints(e: Expr, th: Subst)
    requires WellFormed(e, 0) && Primaries(th)
    ensures Wrap(Negate(e, th), PREC_AND) == Print(Wrapped(e, th)) && WellFormed(Wrapped(e, th), 2)
    decreases e, 1
  {
    NegatePrints(e, th);
    if Negate(e, th).prec < PREC_AND { WellFormedBelow(Complement(e, th), 1, 0); }
  }

  lemma {:induction false} JoinPrints(guards: seq<Expr>, th: Subst)
    requires guards != [] && Primaries(th) && forall i :: 0 <= i < |guards| ==> WellFormed(guards[i], 0)
    ensures JoinGuards(guards, th) == Print(Conjunction(guards, th)) && WellFormed(Conjunction(guards, th), 2)
  {
    WrapPrints(guards[|guards| - 1], th);
    if |guards| > 1 {
      JoinPrints(guards[..|guards| - 1], th);
      PrintJoinAnd(Conjunction(guards[..|guards| - 1], th), Wrapped(guards[|guards| - 1], th));
    }
  }

  /** The printed run-condition parses, under JavaScript's precedence, to `Condition`. */
  lemma ConditionParses(guards: seq<Expr>, th: Subst)
    requires guards != [] && Primaries(th) && forall i :: 0 <= i < |guards| ==> WellFormed(guards[i], 0)
    ensures ParseExpr(CombineGuards(guards, th)) == Some(Condition(guards, th))
  {
    if |guards| == 1 {
      NegatePrints(guards[0], th);
      WellFormedBelow(Condition(guards, th), 1, 0);
    } else {
      JoinPrints(guards, th);
      WellFormedBelow(Condition(guards, th), 2, 0);
    }
    ParseInvertsPrint(Condition(guards, th));
  }

  // ---------------------------------------------------------------- meaning

  /** Same effects, and the opposite truth value; or the same exception. */
  predicate Opposite(x: (Answer, State), y: (Answer, State)) {
    && y.1 == x.1
    && if x.0.Throws? then y.0 == x.0 else y.0.Yields? && (Truthy(y.0.value) <==> !Truthy(x.0.value))
  }

  /** Flipping an equality always complements it; flipping an order comparison does so
      exactly for operands that are ordered (so never for NaN). */
  lemma FlipIsExact(h: Host, op: Comparator, a: Value, b: Value)
    ensures (Compares(h, Flip(op), a, b) <==> !Compares(h, op, a, b)) <==>
            (OpLevel(Compare(op)) == 3 || h.order(a, b) != Unordered)
  {}

  /** Every order comparison that evaluating `e` flips has ordered operands. */
  predicate FlipsOrdered(h: Host, e: Expr, th: Subst, c: set<string>, s: State) {
    match e
    case Paren(e1) => FlipsOrdered(h, e1, th, c, s)
    case Bin(Compare(op), l, r) =>
      OpLevel(e.bop) == 3 ||
      (var (a, s1) := Eval(h, Apply(l, th), c, s);
       var (b, s2) := Eval(h, Apply(r, th), c, s1);
       a.Yields? && b.Yields? ==> h.order(a.value, b.value) != Unordered)
    case Bin(op, l, r) =>
      && FlipsOrdered(h, l, th, c, s)
      && var (a, s1) := Eval(h, Apply(l, th), c, s);
         a.Yields? && (Truthy(a.value) <==> op == AndThen) ==> FlipsOrdered(h, r, th, c, s1)
    case _ => true
  }

  lemma {:induction false} EvalJoinOr(h: Host, a: Expr, b: Expr, c: set<string>, s: State)
    ensures Eval(h, JoinOr(a, b), c, s) == Eval(h, Bin(OrElse, a, b), c, s)
  {
    match b
    case Bin(OrElse, b1, b2) => EvalJoinOr(h, a, b1, c, s);
    case _ =>
  }

  lemma {:induction false} EvalJoinAnd(h: Host, a: Expr, b: Expr, c: set<string>, s: State)
    ensures Eval(h, JoinAnd(a, b), c, s) == Eval(h, Bin(AndThen, a, b), c, s)
  {
    match b
    case Bin(AndThen, b1, b2) => EvalJoinAnd(h, a, b1, c, s);
    case _ =>
  }

  lemma {:induction false} ComplementMeans(h: Host, e: Expr, th: Subst, c: set<string>, s: State)
    requires FlipsOrdered(h, e, th, c, s)
    ensures Opposite(Eval(h, Apply(e, th), c, s), Eval(h, Complement(e, th), c, s))
    decreases e, 0
  {
    match e
    case Paren(e1) => ComplementMeans(h, e1, th, c, s);
    case Bin(Compare(op), l, r) =>
      var (a, s1) := Eval(h, Apply(l, th), c, s);
      var (b, s2) := Eval(h, Apply(r, th), c, s1);
      if a.Yields? && b.Yields? { FlipIsExact(h, op, a.value, b.value); }
    case Bin(AndThen, l, r) =>
      ComplementMeans(h, l, th, c, s);
      var (a, s1) := Eval(h, Apply(l, th), c, s);
      if a.Yields? && Truthy(a.value) { ComplementMeans(h, r, th, c, s1); }
      EvalJoinOr(h, Complement(l, th), Complement(r, th), c, s);
    case Bin(OrElse, l, r) =>
      WrappedMeans(h, l, th, c, s);
      var (a, s1) := Eval(h, Apply(l, th), c, s);
      if a.Yields? && !Truthy(a.value) { WrappedMeans(h, r, th, c, s1); }
      EvalJoinAnd(h, Wrapped(l, th), Wrapped(r, th), c, s);
    case _ =>
  }

  lemma {:induction false} WrappedMeans(h: Host, e: Expr, th: Subst, c: set<string>, s: State)
    requires FlipsOrdered(h, e, th, c, s)
    ensures Opposite(Eval(h, Apply(e, th), c, s), Eval(h, Wrapped(e, th), c, s))
    decreases e, 1
  {
    ComplementMeans(h, e, th, c, s);
  }

  /** How a run of guard clauses `if (g) return;` ends. */
  datatype GuardOutcome = Passed | Stopped | Threw(error: Value)

  function RunGuards(h: Host, guards: seq<Expr>, th: Subst, c: set<string>, s: State): (GuardOutcome, State) {
    if guards == [] then (Passed, s)
    else
      var n := |guards| - 1;
      var (o, s1) := RunGuards(h, guards[..n], th, c, s);
      if o != Passed then (o, s1)
      else
        var (a, s2) := Eval(h, Apply(guards[n], th), c, s1);
        if a.Throws? then (Threw(a.error), s2) else if Truthy(a.value) then (Stopped, s2) else (Passed, s2)
  }

  predicate GuardsOrdered(h: Host, guards: seq<Expr>, th: Subst, c: set<string>, s: State) {
    guards != [] ==>
      var n := |guards| - 1;
      && GuardsOrdered(h, guards[..n], th, c, s)
      && var (o, s1) := RunGuards(h, guards[..n], th, c, s);
         o == Passed ==> FlipsOrdered(h, guards[n], th, c, s1)
  }

  /** What the run-condition must do: hold exactly when every guard lets the helper go on,
      with the same effects in the same order. */
  predicate Inverts(o: (GuardOutcome, State), x: (Answer, State)) {
    && x.1 == o.1
    && match o.0
       case Passed => x.0.Yields? && Truthy(x.0.value)
       case Stopped => x.0.Yields? && !Truthy(x.0.value)
       case Threw(e) => x.0 == Throws(e)
  }

  lemma {:induction false} ConjunctionInverts(h: Host, guards: seq<Expr>, th: Subst, c: set<string>, s: State)
    requires guards != [] && GuardsOrdered(h, guards, th, c, s)
    ensures Inverts(RunGuards(h, guards, th, c, s), Eval(h, Conjunction(guards, th), c, s))
  {
    var n := |guards| - 1;
    var (o, s1) := RunGuards(h, guards[..n], th, c, s);
    if o == Passed { WrappedMeans(h, guards[n], th, c, s1); }
    if n > 0 {
      ConjunctionInverts(h, guards[..n], th, c, s);
      EvalJoinAnd(h, Conjunction(guards[..n], th), Wrapped(guards[n], th), c, s);
    } else {
      assert guards[..n] == [];
    }
  }

  /** Guard inversion is exact, side effects and exceptions included. */
  lemma GuardInversion(h: Host, guards: seq<Expr>, th: Subst, c: set<string>, s: State)
    requires guards != [] && GuardsOrdered(h, guards, th, c, s)
    ensures Inverts(RunGuards(h, guards, th, c, s), Eval(h, Condition(guards, th), c, s))
  {
    if |guards| == 1 {
      assert guards[..0] == [];
      ComplementMeans(h, guards[0], th, c, s);
    } else {
      ConjunctionInverts(h, guards, th, c, s);
    }
  }
}
