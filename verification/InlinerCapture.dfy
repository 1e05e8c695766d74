/** What capture is, exactly, and when the names that the inliner generates cannot capture
    (scripts/inline-functions.ts:490-507, 772-823, 853-880). */
module InlinerCapture {
  import opened Basics
  import opened Decimals
  import opened JsSubset
  import opened JsNames
  import opened Inliner
  import opened InlinerProof

  // ----------------------------------------------- occurrences, before and after

  /** How many occurrences of `y` the free names of the text bring with what stands for them;
      names in `bound` are bound around the text. */
  function StandIns(y: string, e: Expr, th: Subst, bound: set<string>): nat {
    match e
    case Lit(_) => 0
    case Var(x) => if x in bound then 0 else Brings(y, x, th)
    case Assign(x, e1) => (if x !in bound && Rename(x, th) == y then 1 else 0) + StandIns(y, e1, th, bound)
    case Call(f, args) => StandIns(y, f, th, bound) + StandInsArgs(y, args, th, bound)
    case Member(o, _) => StandIns(y, o, th, bound)
    case Not(e1) => StandIns(y, e1, th, bound)
    case Bin(_, l, r) => StandIns(y, l, th, bound) + StandIns(y, r, th, bound)
    case Paren(e1) => StandIns(y, e1, th, bound)
  }

  /** The occurrences of `y` in what stands for `x`. */
  function Brings(y: string, x: string, th: Subst): nat {
    if x in th then Count(y, th[x]) else if x == y then 1 else 0
  }

  lemma BringsFree(y: string, x: string, th: Subst)
    ensures Brings(y, x, th) > 0 <==> y in Sources(x, th)
  {
    if x in th {
      CountFree(y, th[x]);
    }
  }

  function StandInsArgs(y: string, es: Exprs, th: Subst, bound: set<string>): nat {
    match es
    case ENil => 0
    case ECons(e, rest) => StandIns(y, e, th, bound) + StandInsArgs(y, rest, th, bound)
  }

  function StandInsAll(y: string, ss: Stmts, th: Subst, bound: set<string>): nat
    decreases ss, 0
  {
    match ss
    case SNil => 0
    case SCons(s, rest) => StandInsStmt(y, s, th, bound) + StandInsAll(y, rest, th, bound)
  }

  function StandInsStmt(y: string, s: Stmt, th: Subst, bound: set<string>): nat
    decreases s, 0
  {
    match s
    case Decl(x, e) => (if x !in bound && Rename(x, th) == y then 1 else 0) + StandIns(y, e, th, bound)
    case Do(e) => StandIns(y, e, th, bound)
    case If(e, t, f) => StandIns(y, e, th, bound) + StandInsBlock(y, t, th, bound) + StandInsBlock(y, f, th, bound)
    case Block(b) => StandInsBlock(y, b, th, bound)
  }

  function StandInsBlock(y: string, ss: Stmts, th: Subst, bound: set<string>): nat
    decreases ss, 1
  {
    StandInsAll(y, ss, th, bound + Declared(ss))
  }

  lemma {:induction false} ExprKeepsAll(y: string, e: Expr, th: Subst, bound: set<string>)
    requires y !in bound
    ensures Count(y, Apply(e, th - bound)) == StandIns(y, e, th, bound)
  {
    match e
    case Assign(_, e1) => ExprKeepsAll(y, e1, th, bound);
    case Call(f, args) => ExprKeepsAll(y, f, th, bound); ArgsKeepAll(y, args, th, bound);
    case Member(o, _) => ExprKeepsAll(y, o, th, bound);
    case Not(e1) => ExprKeepsAll(y, e1, th, bound);
    case Bin(_, l, r) => ExprKeepsAll(y, l, th, bound); ExprKeepsAll(y, r, th, bound);
    case Paren(e1) => ExprKeepsAll(y, e1, th, bound);
    case _ =>
  }

  lemma {:induction false} ArgsKeepAll(y: string, es: Exprs, th: Subst, bound: set<string>)
    requires y !in bound
    ensures CountArgs(y, ApplyArgs(es, th - bound)) == StandInsArgs(y, es, th, bound)
  {
    match es
    case ENil =>
    case ECons(e, rest) => ExprKeepsAll(y, e, th, bound); ArgsKeepAll(y, rest, th, bound);
  }

  // ------------------------------------------------------ capture of one name

  /** No block that declares `y` uses a name that is replaced by something with `y` in it. */
  ghost predicate KeepsBlock(y: string, ss: Stmts, th: Subst)
    decreases ss, 1
  {
    && (y in Declared(ss) ==> forall x :: x in FreeBlock(ss) && x in th ==> y !in Free(th[x]))
    && KeepsAll(y, ss, th - Declared(ss))
  }

  ghost predicate KeepsAll(y: string, ss: Stmts, th: Subst)
    decreases ss, 0
  {
    match ss
    case SNil => true
    case SCons(s, rest) => KeepsStmt(y, s, th) && KeepsAll(y, rest, th)
  }

  ghost predicate KeepsStmt(y: string, s: Stmt, th: Subst)
    decreases s, 0
  {
    match s
    case If(_, t, f) => KeepsBlock(y, t, th) && KeepsBlock(y, f, th)
    case Block(b) => KeepsBlock(y, b, th)
    case _ => true
  }

  lemma {:induction false} FreeKeepsAll(y: string, ss: Stmts, th: Subst)
    requires CaptureFreeAll(ss, th)
    ensures KeepsAll(y, ss, th)
    decreases ss, 0
  {
    match ss
    case SNil =>
    case SCons(s, rest) => FreeKeepsStmt(y, s, th); FreeKeepsAll(y, rest, th);
  }

  lemma {:induction false} FreeKeepsStmt(y: string, s: Stmt, th: Subst)
    requires CaptureFreeStmt(s, th)
    ensures KeepsStmt(y, s, th)
    decreases s, 0
  {
    match s
    case If(_, t, f) => FreeKeepsBlock(y, t, th); FreeKeepsBlock(y, f, th);
    case Block(b) => FreeKeepsBlock(y, b, th);
    case _ =>
  }

  lemma {:induction false} FreeKeepsBlock(y: string, ss: Stmts, th: Subst)
    requires CaptureFreeBlock(ss, th)
    ensures KeepsBlock(y, ss, th)
    decreases ss, 1
  {
    FreeKeepsAll(y, ss, th - Declared(ss));
  }

  /** Where something is captured, `y` is one of the names that are. */
  lemma {:induction false} CapturedInAll(ss: Stmts, th: Subst) returns (y: string)
    requires !CaptureFreeAll(ss, th)
    ensures !KeepsAll(y, ss, th)
    decreases ss, 0
  {
    match ss
    case SCons(s, rest) =>
      if !CaptureFreeStmt(s, th) { y := CapturedInStmt(s, th); } else { y := CapturedInAll(rest, th); }
  }

  lemma {:induction false} CapturedInStmt(s: Stmt, th: Subst) returns (y: string)
    requires !CaptureFreeStmt(s, th)
    ensures !KeepsStmt(y, s, th)
    decreases s, 0
  {
    match s
    case If(_, t, f) =>
      if !CaptureFreeBlock(t, th) { y := CapturedInBlock(t, th); } else { y := CapturedInBlock(f, th); }
    case Block(b) => y := CapturedInBlock(b, th);
  }

  lemma {:induction false} CapturedInBlock(ss: Stmts, th: Subst) returns (y: string)
    requires !CaptureFreeBlock(ss, th)
    ensures !KeepsBlock(y, ss, th)
    decreases ss, 1
  {
    if !NoCapture(th, FreeBlock(ss), Declared(ss)) {
      var x :| x in FreeBlock(ss) && x in th && !(Free(th[x]) !! Declared(ss));
      y :| y in Free(th[x]) && y in Declared(ss);
    } else {
      y := CapturedInAll(ss, th - Declared(ss));
    }
  }

  // ----------------------------------------------- where stand-ins come from

  /** `y` is in what stands for some name of `names` that is not bound around it. */
  ghost predicate StoodFor(y: string, names: set<string>, th: Subst, bound: set<string>) {
    exists x :: x in names && x !in bound && y in Sources(x, th)
  }

  lemma StoodForUnion(y: string, a: set<string>, b: set<string>, th: Subst, bound: set<string>)
    ensures StoodFor(y, a + b, th, bound) <==> StoodFor(y, a, th, bound) || StoodFor(y, b, th, bound)
  {
    if StoodFor(y, a, th, bound) {
      var x :| x in a && x !in bound && y in Sources(x, th);
      assert x in a + b;
    }
    if StoodFor(y, b, th, bound) {
      var x :| x in b && x !in bound && y in Sources(x, th);
      assert x in a + b;
    }
  }

  lemma StoodForOne(y: string, x: string, th: Subst, bound: set<string>)
    ensures StoodFor(y, {x}, th, bound) <==> x !in bound && y in Sources(x, th)
  {
    if x !in bound && y in Sources(x, th) { assert x in {x}; }
  }

  lemma {:induction false} ExprStandIns(y: string, e: Expr, th: Subst, bound: set<string>)
    requires Writable(Writes(e) - bound, th)
    ensures StandIns(y, e, th, bound) > 0 <==> StoodFor(y, Free(e), th, bound)
  {
    hide StoodFor, Sources, Brings;
    match e
    case Lit(_) => NothingStoodFor(y, th, bound);
    case Var(x) => StoodForOne(y, x, th, bound); BringsFree(y, x, th);
    case Assign(x, e1) =>
      StoodForOne(y, x, th, bound);
      RenameIsImage(y, x, th, Writes(e) - bound);
      ExprStandIns(y, e1, th, bound);
      StoodForUnion(y, {x}, Free(e1), th, bound);
    case Call(f, args) =>
      ExprStandIns(y, f, th, bound);
      ArgsStandIns(y, args, th, bound);
      StoodForUnion(y, Free(f), FreeArgs(args), th, bound);
    case Member(o, _) => ExprStandIns(y, o, th, bound);
    case Not(e1) => ExprStandIns(y, e1, th, bound);
    case Bin(_, l, r) =>
      ExprStandIns(y, l, th, bound);
      ExprStandIns(y, r, th, bound);
      StoodForUnion(y, Free(l), Free(r), th, bound);
    case Paren(e1) => ExprStandIns(y, e1, th, bound);
  }

  lemma NothingStoodFor(y: string, th: Subst, bound: set<string>)
    ensures !StoodFor(y, {}, th, bound)
  {}

  lemma RenameIsImage(y: string, x: string, th: Subst, ws: set<string>)
    requires Writable(ws, th) 
    ensures x in ws ==> (Rename(x, th) == y <==> y in Sources(x, th))
  {}

  lemma {:induction false} ArgsStandIns(y: string, es: Exprs, th: Subst, bound: set<string>)
    requires Writable(WritesArgs(es) - bound, th)
    ensures StandInsArgs(y, es, th, bound) > 0 <==> StoodFor(y, FreeArgs(es), th, bound)
  {
    hide StoodFor;
    match es
    case ENil => NothingStoodFor(y, th, bound);
    case ECons(e, rest) =>
      ExprStandIns(y, e, th, bound);
      ArgsStandIns(y, rest, th, bound);
      StoodForUnion(y, Free(e), FreeArgs(rest), th, bound);
  }

  lemma {:induction false} AllStandIns(y: string, ss: Stmts, th: Subst, bound: set<string>)
    requires Writable(WritesLevel(ss) - bound, th)
    ensures StandInsAll(y, ss, th, bound) > 0 <==> StoodFor(y, Level(ss), th, bound)
    decreases ss, 0
  {
    hide StoodFor;
    match ss
    case SNil => NothingStoodFor(y, th, bound);
    case SCons(s, rest) =>
      StmtStandIns(y, s, th, bound);
      AllStandIns(y, rest, th, bound);
      StoodForUnion(y, LevelStmt(s), Level(rest), th, bound);
  }

  lemma {:induction false} StmtStandIns(y: string, s: Stmt, th: Subst, bound: set<string>)
    requires Writable(WritesStmt(s) - bound, th)
    ensures StandInsStmt(y, s, th, bound) > 0 <==> StoodFor(y, LevelStmt(s), th, bound)
    decreases s, 0
  {
    hide StoodFor, Sources, Brings;
    match s
    case Decl(x, e) =>
      StoodForOne(y, x, th, bound);
      RenameIsImage(y, x, th, WritesStmt(s) - bound);
      ExprStandIns(y, e, th, bound);
      StoodForUnion(y, {x}, Free(e), th, bound);
    case Do(e) => ExprStandIns(y, e, th, bound);
    case If(e, t, f) =>
      ExprStandIns(y, e, th, bound);
      BlockStandIns(y, t, th, bound);
      BlockStandIns(y, f, th, bound);
      StoodForUnion(y, Free(e), FreeBlock(t), th, bound);
      StoodForUnion(y, Free(e) + FreeBlock(t), FreeBlock(f), th, bound);
    case Block(b) => BlockStandIns(y, b, th, bound);
  }

  lemma {:induction false} BlockStandIns(y: string, ss: Stmts, th: Subst, bound: set<string>)
    requires Writable(WritesBlock(ss) - bound, th)
    ensures StandInsBlock(y, ss, th, bound) > 0 <==> StoodFor(y, FreeBlock(ss), th, bound)
    decreases ss, 1
  {
    var d := Declared(ss);
    assert WritesLevel(ss) - (bound + d) == WritesBlock(ss) - bound;
    AllStandIns(y, ss, th, bound + d);
    assert StoodFor(y, Level(ss), th, bound + d) <==> StoodFor(y, FreeBlock(ss), th, bound) by {
      if StoodFor(y, FreeBlock(ss), th, bound) {
        var x :| x in FreeBlock(ss) && x !in bound && y in Sources(x, th);
        assert x in Level(ss) && x !in bound + d;
      }
      if StoodFor(y, Level(ss), th, bound + d) {
        var x :| x in Level(ss) && x !in bound + d && y in Sources(x, th);
        assert x in FreeBlock(ss) && x !in bound;
      }
    }
  }

  // ------------------------------------------------- capture loses occurrences

  /** Substitution never adds a free occurrence of `y`, and keeps all exactly when no block
      captures it. */
  lemma {:induction false} AllKept(y: string, ss: Stmts, th: Subst, bound: set<string>)
    requires Writable(WritesLevel(ss) - bound, th) && y !in bound
    ensures CountAll(y, ApplyAll(ss, th - bound)) <= StandInsAll(y, ss, th, bound)
    ensures CountAll(y, ApplyAll(ss, th - bound)) == StandInsAll(y, ss, th, bound) <==> KeepsAll(y, ss, th - bound)
    decreases ss, 0
  {
    match ss
    case SNil =>
    case SCons(s, rest) => StmtKept(y, s, th, bound); AllKept(y, rest, th, bound);
  }

  lemma {:induction false} StmtKept(y: string, s: Stmt, th: Subst, bound: set<string>)
    requires Writable(WritesStmt(s) - bound, th) && y !in bound
    ensures CountStmt(y, ApplyStmt(s, th - bound)) <= StandInsStmt(y, s, th, bound)
    ensures CountStmt(y, ApplyStmt(s, th - bound)) == StandInsStmt(y, s, th, bound) <==> KeepsStmt(y, s, th - bound)
    decreases s, 0
  {
    hide Writable, Sources;
    match s
    case Decl(x, e) => ExprKeepsAll(y, e, th, bound); RenameWithout(y, x, th, bound);
    case Do(e) => ExprKeepsAll(y, e, th, bound);
    case If(e, t, f) =>
      ExprKeepsAll(y, e, th, bound);
      WritableWithin(th, WritesStmt(s) - bound, WritesBlock(t) - bound);
      WritableWithin(th, WritesStmt(s) - bound, WritesBlock(f) - bound);
      BlockKept(y, t, th, bound);
      BlockKept(y, f, th, bound);
    case Block(b) => BlockKept(y, b, th, bound);
  }

  lemma RenameWithout(y: string, x: string, th: Subst, bound: set<string>)
    requires y !in bound
    ensures Rename(x, th - bound) == y <==> x !in bound && Rename(x, th) == y
  {}

  lemma WritableWithin(th: Subst, ws: set<string>, part: set<string>)
    requires Writable(ws, th) && part <= ws
    ensures Writable(part, th)
  {}

  lemma {:induction false} BlockKept(y: string, ss: Stmts, th: Subst, bound: set<string>)
    requires Writable(WritesBlock(ss) - bound, th) && y !in bound
    ensures CountBlock(y, ApplyBlock(ss, th - bound)) <= StandInsBlock(y, ss, th, bound)
    ensures CountBlock(y, ApplyBlock(ss, th - bound)) == StandInsBlock(y, ss, th, bound) <==> KeepsBlock(y, ss, th - bound)
    decreases ss, 1
  {
    var d := Declared(ss);
    var inner := th - (bound + d);
    assert (th - bound) - d == inner;
    assert WritesLevel(ss) - (bound + d) == WritesBlock(ss) - bound;
    DeclaredApply(ss, inner);
    if y in d {
      BlockStandIns(y, ss, th, bound);
      CapturedHere(y, ss, th, bound);
    } else {
      AllKept(y, ss, th, bound + d);
    }
  }

  /** In a block that declares `y`, being kept means standing for nothing. */
  lemma CapturedHere(y: string, ss: Stmts, th: Subst, bound: set<string>)
    requires y in Declared(ss)
    ensures KeepsBlock(y, ss, th - bound) <==> !StoodFor(y, FreeBlock(ss), th, bound)
  {
    var d := Declared(ss);
    if !StoodFor(y, FreeBlock(ss), th, bound) {
      forall x | x in FreeBlock(ss) && x in th - bound ensures y !in Free((th - bound)[x]) {
        assert y in Free((th - bound)[x]) ==> y in Sources(x, th);
      }
      NothingToCapture(y, ss, (th - bound) - d);
    }
    if StoodFor(y, FreeBlock(ss), th, bound) {
      var x :| x in FreeBlock(ss) && x !in bound && y in Sources(x, th);
      assert x in th - bound && y in Free((th - bound)[x]);
    }
  }

  lemma {:induction false} NothingToCapture(y: string, ss: Stmts, th: Subst)
    requires forall x :: x in Level(ss) && x in th ==> y !in Free(th[x])
    ensures KeepsAll(y, ss, th)
    decreases ss, 0
  {
    match ss
    case SNil =>
    case SCons(s, rest) =>
      NothingToCaptureStmt(y, s, th);
      NothingToCapture(y, rest, th);
  }

  lemma {:induction false} NothingToCaptureStmt(y: string, s: Stmt, th: Subst)
    requires forall x :: x in LevelStmt(s) && x in th ==> y !in Free(th[x])
    ensures KeepsStmt(y, s, th)
    decreases s, 0
  {
    match s
    case If(_, t, f) => NothingToCaptureBlock(y, t, th); NothingToCaptureBlock(y, f, th);
    case Block(b) => NothingToCaptureBlock(y, b, th);
    case _ =>
  }

  lemma {:induction false} NothingToCaptureBlock(y: string, ss: Stmts, th: Subst)
    requires forall x :: x in FreeBlock(ss) && x in th ==> y !in Free(th[x])
    ensures KeepsBlock(y, ss, th)
    decreases ss, 1
  {
    var inner := th - Declared(ss);
    forall x | x in Level(ss) && x in inner ensures y !in Free(inner[x]) { assert x in FreeBlock(ss); }
    NothingToCapture(y, ss, inner);
  }

  /** Every occurrence of `y` that the free names of the text bring is a free one afterwards. */
  ghost predicate NothingLost(y: string, ss: Stmts, th: Subst) {
    CountBlock(y, ApplyBlock(ss, th)) == StandInsBlock(y, ss, th, {})
  }

  ghost predicate NothingLostInSplice(y: string, ss: Stmts, th: Subst) {
    CountAll(y, ApplyAll(ss, th)) == StandInsAll(y, ss, th, {})
  }

  /** Substituting into a block captures nothing if and only if no free occurrence is lost. */
  lemma CaptureFreeExactly(ss: Stmts, th: Subst)
    requires Writable(WritesBlock(ss), th)
    ensures CaptureFreeBlock(ss, th) <==> forall y :: NothingLost(y, ss, th)
  {
    assert th - {} == th && WritesBlock(ss) - {} == WritesBlock(ss);
    if CaptureFreeBlock(ss, th) {
      forall y ensures NothingLost(y, ss, th) {
        FreeKeepsBlock(y, ss, th);
        BlockKept(y, ss, th, {});
      }
    } else {
      var y := CapturedInBlock(ss, th);
      BlockKept(y, ss, th, {});
      assert !NothingLost(y, ss, th);
    }
  }

  /** The same for statements spliced into the block around them. */
  lemma SplicedCaptureFreeExactly(ss: Stmts, th: Subst)
    requires Writable(WritesLevel(ss), th)
    ensures CaptureFreeAll(ss, th) <==> forall y :: NothingLostInSplice(y, ss, th)
  {
    assert th - {} == th && WritesLevel(ss) - {} == WritesLevel(ss);
    if CaptureFreeAll(ss, th) {
      forall y ensures NothingLostInSplice(y, ss, th) {
        FreeKeepsAll(y, ss, th);
        AllKept(y, ss, th, {});
      }
    } else {
      var y := CapturedInAll(ss, th);
      AllKept(y, ss, th, {});
      assert !NothingLostInSplice(y, ss, th);
    }
  }

  // --------------------------------------------------------- one call site

  /** The hypothesis on a call site, in terms of the code that is inserted: no free name of the
      helper is bound there, and no free occurrence in the tail is lost. */
  lemma SiteClearExactly(h: Helper, args: Exprs, reserved: set<string>)
    requires Analyzed(h)
    ensures var site := PlanSite(h, args, reserved, true);
            && Inserted(site).Some?
            && (SiteClear(h, site) <==>
                && FreeNames(h) !! Declared(Inserted(site).value)
                && if h.guards != [] then forall y :: NothingLost(y, h.tail, site.th)
                   else forall y :: NothingLostInSplice(y, h.tail, site.th))
  {
    var site := PlanSite(h, args, reserved, true);
    SiteInserts(h, args, reserved);
    SitePlan(h, args, reserved);
    hide PlanSite, Inserted, Analyzed, NothingLost, NothingLostInSplice, CaptureFreeBlock, CaptureFreeAll;
    if h.guards != [] {
      CaptureFreeExactly(h.tail, site.th);
    } else {
      SplicedCaptureFreeExactly(h.tail, site.th);
    }
  }

  lemma SitePlan(h: Helper, args: Exprs, reserved: set<string>)
    requires Analyzed(h)
    ensures var site := PlanSite(h, args, reserved, true);
            && Writable(WritesBlock(h.tail), site.th)
            && (h.guards == [] ==> Writable(WritesLevel(h.tail), site.th))
            && (FreeNames(h) !! NewNames(site, reserved) <==> FreeNames(h) !! Images(site.th))
  {
    if h.guards == [] { GuardlessPlan(h, args, reserved); } else { GuardedPlan(h, args, reserved); }
    hide PlanSite, Inserted;
  }

  // -------------------------------------------- names that nobody could have

  predicate AllDigits(s: string) {
    forall i :: 0 <= i < |s| ==> '0' <= s[i] <= '9'
  }

  /** `base` with an underscore and a number. */
  predicate Numbered(name: string, base: string) {
    |name| > |base| + 1 && base + "_" <= name && AllDigits(name[|base| + 1..])
  }

  lemma {:induction false} DecimalDigits(n: nat)
    ensures AllDigits(Decimal(n))
  {
    if n >= 10 { DecimalDigits(n / 10); }
  }

  lemma {:induction false} FreshFromShape(base: string, taken: set<string>, i: nat)
    requires i >= 2
    ensures Numbered(FreshFrom(base, taken, i), base)
    decreases taken - Tried(base, i)
  {
    if Candidate(base, i) in taken {
      TriedGrows(base, taken, i);
      FreshFromShape(base, taken, i + 1);
    } else {
      DecimalDigits(i);
      assert Candidate(base, i)[|base| + 1..] == Decimal(i);
    }
  }

  lemma FreshShape(base: string, taken: set<string>)
    ensures if base in taken then Numbered(Fresh(base, taken), base) else Fresh(base, taken) == base
  {
    if base in taken { FreshFromShape(base, taken, 2); }
  }

  /** The names the helper's body binds, or leaves free. */
  function OwnNames(h: Helper): set<string> {
    FreeNames(h) + Declared(h.tail) + Nested(h.tail)
  }

  predicate TempName(name: string, h: Helper) {
    exists p :: p in h.params && Uses(p, h) > 0 && (name == TempBase(p) || Numbered(name, TempBase(p)))
  }

  predicate RenamedName(name: string, h: Helper) {
    h.guards == [] && exists x :: x in Declared(h.tail) && Numbered(name, x)
  }

  /** No name of the body looks like one that the inliner may generate for this helper. */
  predicate NamesApart(h: Helper) {
    forall n :: n in OwnNames(h) ==> !TempName(n, h) && !RenamedName(n, h)
  }

  lemma {:induction false} TempsAreTempNames(h: Helper, params: seq<string>, args: Exprs, reserved: set<string>, y: string)
    requires (forall p :: p in params ==> p in h.params) && y in Images(PlanArgs(h, params, args, reserved, true).th)
    requires forall i, j :: 0 <= i < j < |params| ==> params[i] != params[j]
    ensures TempName(y, h)
    decreases |params|
  {
    hide Uses;
    var p := params[0];
    assert params == [p] + params[1..];
    if args.ECons? && Uses(p, h) > 0 {
      var temp := Fresh(TempBase(p), reserved);
      var rest := PlanArgs(h, params[1..], args.tail, reserved + {temp}, true);
      StrictPlanFacts(h, params[1..], args.tail, reserved + {temp});
      HoistImages(h, params, temp, reserved, rest);
      if y == temp {
        FreshShape(TempBase(p), reserved);
        assert p in h.params;
      } else {
        TempsAreTempNames(h, params[1..], args.tail, reserved + {temp}, y);
      }
    } else {
      var more := if args.ENil? then ENil else args.tail;
      var rest := PlanArgs(h, params[1..], more, reserved, true);
      StrictPlanFacts(h, params[1..], more, reserved);
      ImagesWithout(p, rest.th, y);
      TempsAreTempNames(h, params[1..], more, reserved, y);
    }
  }

  lemma ImagesWithout(p: string, th: Subst, y: string)
    requires p !in th
    ensures y in Images(map[p := Lit(Undefined)] + th) ==> y in Images(th)
  {
    var all := map[p := Lit(Undefined)] + th;
    if y in Images(all) {
      var x :| x in all && all[x].Var? && all[x].x == y;
      assert x in th && th[x] == all[x];
    }
  }

  lemma {:induction false} RenamedAreNumbered(tail: Stmts, taken: set<string>, y: string)
    requires DistinctDecls(tail) && y in Images(PlanLocals(tail, taken).0)
    ensures exists x :: x in Declared(tail) && Numbered(y, x)
  {
    match tail
    case SCons(Decl(x, _), rest) =>
      if x !in taken {
        RenamedAreNumbered(rest, taken + {x}, y);
        var z :| z in Declared(rest) && Numbered(y, z);
        assert z in Declared(tail);
      } else {
        var renamed := Fresh(x, taken);
        var one: Subst := map[x := Var(renamed)];
        var (th, after) := PlanLocals(rest, taken + {renamed});
        LocalsPlanFacts(rest, taken + {renamed});
        ImagesOfUnion(one, th);
        assert Images(one) == {renamed};
        if y == renamed {
          FreshShape(x, taken);
          assert x in Declared(tail);
        } else {
          RenamedAreNumbered(rest, taken + {renamed}, y);
          var z :| z in Declared(rest) && Numbered(y, z);
          assert z in Declared(tail);
        }
      }
    case SCons(_, rest) =>
      RenamedAreNumbered(rest, taken, y);
      var z :| z in Declared(rest) && Numbered(y, z);
      assert z in Declared(tail);
  }

  lemma GeneratedShape(h: Helper, args: Exprs, reserved: set<string>, y: string)
    requires Analyzed(h) && y in Images(PlanSite(h, args, reserved, true).th)
    ensures TempName(y, h) || RenamedName(y, h)
  {
    hide TempName, RenamedName;
    var plan := PlanArgs(h, h.params, args, reserved, true);
    if h.guards == [] {
      var (lo, after) := PlanLocals(h.tail, plan.reserved);
      StrictPlanFacts(h, h.params, args, reserved);
      LocalsPlanFacts(h.tail, plan.reserved);
      ImagesOfUnion(plan.th, lo);
      if y in Images(plan.th) {
        TempsAreTempNames(h, h.params, args, reserved, y);
      } else {
        RenamedAreNumbered(h.tail, plan.reserved, y);
        RenamedIs(h, y);
      }
    } else {
      TempsAreTempNames(h, h.params, args, reserved, y);
    }
  }

  lemma RenamedIs(h: Helper, y: string)
    requires h.guards == [] && exists x :: x in Declared(h.tail) && Numbered(y, x)
    ensures RenamedName(y, h)
  {}

  /** No replacement has one of the names. */
  ghost predicate Away(th: Subst, names: set<string>) {
    forall x :: x in th ==> Free(th[x]) !! names
  }

  /** Names that no block declares are never captured. */
  lemma {:induction false} AwayAll(ss: Stmts, th: Subst)
    requires Away(th, Nested(ss))
    ensures CaptureFreeAll(ss, th)
    decreases ss, 0
  {
    match ss
    case SNil =>
    case SCons(s, rest) => AwayStmt(s, th); AwayAll(rest, th);
  }

  lemma {:induction false} AwayStmt(s: Stmt, th: Subst)
    requires Away(th, NestedStmt(s))
    ensures CaptureFreeStmt(s, th)
    decreases s, 0
  {
    match s
    case If(_, t, f) => AwayBlock(t, th); AwayBlock(f, th);
    case Block(b) => AwayBlock(b, th);
    case _ =>
  }

  lemma {:induction false} AwayBlock(ss: Stmts, th: Subst)
    requires Away(th, NestedBlock(ss))
    ensures CaptureFreeBlock(ss, th)
    decreases ss, 1
  {
    AwayAll(ss, th - Declared(ss));
  }

  lemma ApartIsClear(h: Helper, args: Exprs, reserved: set<string>)
    requires Analyzed(h) && NamesApart(h)
    ensures SiteClear(h, PlanSite(h, args, reserved, true))
  {
    var site := PlanSite(h, args, reserved, true);
    forall y | y in Images(site.th) ensures y !in OwnNames(h) {
      GeneratedShape(h, args, reserved, y);
    }
    SiteImages(h, args, reserved);
    hide PlanSite, Analyzed, NamesApart, TempName, RenamedName, Images;
    AwayBlock(h.tail, site.th);
    AwayAll(h.tail, site.th);
  }

  /** In strict mode replacements are new variables and `undefined`. */
  lemma SiteImages(h: Helper, args: Exprs, reserved: set<string>)
    requires Analyzed(h)
    ensures var th := PlanSite(h, args, reserved, true).th; forall x :: x in th ==> Free(th[x]) <= Images(th)
  {
    var th := PlanSite(h, args, reserved, true).th;
    if h.guards == [] { GuardlessPlan(h, args, reserved); } else { GuardedPlan(h, args, reserved); }
    forall x | x in th ensures Free(th[x]) <= Images(th) {
      assert th[x].Var? || th[x] == Lit(Undefined);
    }
  }

  lemma {:induction false} ApartSitesClear(h: Helper, items: Items, reserved: set<string>)
    requires Analyzed(h) && NamesApart(h)
    ensures SitesClear(h, items, reserved)
    decreases items, 0
  {
    hide Analyzed, NamesApart, SiteClear, PlanSite;
    match items
    case INil =>
    case IPlain(_, rest) => ApartSitesClear(h, rest, reserved);
    case ISite(args, rest) =>
      ApartIsClear(h, args, reserved);
      ApartSitesClear(h, rest, PlanSite(h, args, reserved, true).reserved);
    case INest(b, rest) =>
      ApartBlockClear(h, b);
      ApartSitesClear(h, rest, reserved);
    case IBranch(_, t, f, rest) =>
      ApartBlockClear(h, t);
      ApartBlockClear(h, f);
      ApartSitesClear(h, rest, reserved);
  }

  lemma {:induction false} ApartBlockClear(h: Helper, items: Items)
    requires Analyzed(h) && NamesApart(h)
    ensures BlockClear(h, items)
    decreases items, 1
  {
    hide Analyzed, NamesApart;
    ApartSitesClear(h, items, MentionsItems(h, items));
  }

  /** Strict-mode inlining is exact for every helper whose own names do not look generated,
      whatever the blocks it is called in. */
  lemma StrictInliningByNames(host: Host, h: Helper, items: Items, c: set<string>, st: State)
    requires Analyzed(h) && NamesApart(h) && ArityOk(h, items)
    requires FreeNames(h) !! c + st.locals.Keys + DeclaredWithin(items)
    requires BlockOrdered(host, h, items, c, st)
    ensures InlineBlock(h, items).Some?
    ensures ExecBlock(host, InlineBlock(h, items).value, c, st) == ExecItemBlock(host, h, items, c, st)
  {
    hide Analyzed, NamesApart, ArityOk, BlockOrdered, FreeNames, InlineBlock, ExecBlock, ExecItemBlock;
    ApartBlockClear(h, items);
    StrictInliningIsExact(host, h, items, c, st);
  }
}
