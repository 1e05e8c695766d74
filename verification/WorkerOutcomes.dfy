/** What a run of `runOnce` returns and asks of the ledger, by what its agent did
    (extensions/ompk-delegations/worker.ts:78-123). */
module WorkerOutcomes {
  import opened Basics
  import opened LedgerModel
  import opened LedgerRuns
  import LedgerLeases
  import LedgerTheorems
  import opened WorkerProtocol

  /** The agent has exited with this code. */
  predicate ExitedWith(pc: Pc, task: Task, exitCode: int) {
    || (pc.AwaitFinished? && pc.task == task && pc.exitCode == exitCode)
    || (pc.Exited? && pc.task == task && pc.exitCode == exitCode)
  }

  /** Something went wrong with the task: its repository is not known or not there, its agent
      crashed or exited with another code than 0, or a heartbeat failed while the agent was at work. */
  predicate FailsAt(w: Worker, task: Task) {
    || (w.pc.AwaitRefusal? && w.pc.task == task)
    || (w.pc.AwaitCrashReport? && w.pc.task == task)
    || (w.pc == Executing(task) && w.heartbeatFailed)
    || ((w.pc.AwaitFinished? || w.pc.Exited?) && w.pc.task == task && w.pc.exitCode != 0)
  }

  /** Where a run can be after its agent exited with 0. */
  predicate AfterSuccess(pc: Pc, task: Task) {
    || ExitedWith(pc, task, 0)
    || (pc.AwaitReady? && pc.task == task)
    || pc == Returned(ReviewReadyResult, Some(task))
    || pc.Threw?
  }

  /** Where a run can be after something went wrong. */
  predicate AfterFailure(w: Worker, task: Task) {
    || FailsAt(w, task)
    || (w.pc.AwaitExitReport? && w.pc.task == task)
    || w.pc == Returned(UncertainResult, Some(task))
    || w.pc.Threw?
  }

  /** One step of everything, as one worker sees it: it stays, it sends, it moves by itself, or
      what it waits for arrives or is given up. A failed heartbeat is not forgotten. */
  ghost predicate Moves(c: Config, a: Worker, z: Worker) {
    && (a.heartbeatFailed ==> z.heartbeatFailed)
    && (|| z.pc == a.pc
        || MayMove(a.pc, a.heartbeatFailed, z.pc)
        || (exists n, request :: MaySend(a.pc, a.heartbeatFailed, n, request, z.pc))
        || exists answer :: z.pc == Resume(c, a.pc, answer))
  }

  lemma StepMoves(cs: seq<Config>, s: System, a: Action, u: System, w: nat)
    requires |cs| == |s.workers| && WorkerProtocol.Step(cs, s, a, u) && w < |s.workers|
    ensures |u.workers| == |s.workers| && Moves(cs[w], s.workers[w], u.workers[w])
  {
    hide Apply, Allowed, CommandOf, OthersMay, MaySend, MayMove, Resume, Beating;
    if a.Deliver? {
      DeliverMoves(cs, s, a.n, a.now, a.choice, a.heard, u, w);
    }
    if a.Send? && a.w == w {
      assert MaySend(PcOf(s, w), s.workers[w].heartbeatFailed, a.n, a.request, PcOf(u, w));
    }
  }

  lemma DeliverMoves(cs: seq<Config>, s: System, n: nat, now: int, choice: Choice, heard: bool, u: System, w: nat)
    requires |cs| == |s.workers| && w < |s.workers| && n in s.pending && s.pending[n].sender < |cs| && Delivered(cs, s, n, now, choice, heard, u)
    ensures |u.workers| == |s.workers| && Moves(cs[w], s.workers[w], u.workers[w])
  {
    hide Apply, Allowed, CommandOf, MaySend, MayMove, Resume;
    var answer := Some(Apply(s.tables, now, CommandOf(cs[s.pending[n].sender], s.pending[n].request), choice).1);
    if heard && Awaited(PcOf(s, s.pending[n].sender)) == Some(n) && s.pending[n].sender == w {
      assert PcOf(u, w) == Resume(cs[w], PcOf(s, w), answer);
    }
  }

  lemma SuccessGoesOn(c: Config, a: Worker, z: Worker, task: Task)
    requires Moves(c, a, z) && AfterSuccess(a.pc, task)
    ensures AfterSuccess(z.pc, task)
  {}

  lemma FailureGoesOn(c: Config, a: Worker, z: Worker, task: Task)
    requires Moves(c, a, z) && AfterFailure(a, task)
    ensures AfterFailure(z, task)
  {}

  // ---------------------------------------------------------- over behaviours

  ghost predicate Has(b: Behaviour, i: int, w: nat) {
    0 <= i < |b.systems| && w < |b.systems[i].workers|
  }

  lemma MovesAt(cs: seq<Config>, b: Behaviour, i: nat, w: nat)
    requires IsBehaviour(cs, b) && i < |b.actions| && w < |cs|
    ensures Has(b, i, w) && Has(b, i + 1, w) && Moves(cs[w], b.systems[i].workers[w], b.systems[i + 1].workers[w])
  {
    hide WorkerProtocol.Step, Moves, Initial, Inv;
    assert StepAt(cs, b, i);
    StepMoves(cs, b.systems[i], b.actions[i], b.systems[i + 1], w);
  }

  lemma {:induction false} SuccessLasts(cs: seq<Config>, b: Behaviour, i: nat, j: nat, w: nat, task: Task)
    requires IsBehaviour(cs, b) && w < |cs| && i <= j && Has(b, i, w) && Has(b, j, w) && AfterSuccess(PcOf(b.systems[i], w), task)
    ensures AfterSuccess(PcOf(b.systems[j], w), task)
    decreases j
  {
    hide IsBehaviour, Moves, AfterSuccess;
    if i < j {
      Steps(cs, b);
      MovesAt(cs, b, j - 1, w);
      SuccessLasts(cs, b, i, j - 1, w, task);
      SuccessGoesOn(cs[w], b.systems[j - 1].workers[w], b.systems[j].workers[w], task);
    }
  }

  lemma {:induction false} FailureLasts(cs: seq<Config>, b: Behaviour, i: nat, j: nat, w: nat, task: Task)
    requires IsBehaviour(cs, b) && w < |cs| && i <= j && Has(b, i, w) && Has(b, j, w) && AfterFailure(b.systems[i].workers[w], task)
    ensures AfterFailure(b.systems[j].workers[w], task)
    decreases j
  {
    hide IsBehaviour, Moves, AfterFailure;
    if i < j {
      Steps(cs, b);
      MovesAt(cs, b, j - 1, w);
      FailureLasts(cs, b, i, j - 1, w, task);
      FailureGoesOn(cs[w], b.systems[j - 1].workers[w], b.systems[j].workers[w], task);
    }
  }

  lemma Steps(cs: seq<Config>, b: Behaviour)
    requires IsBehaviour(cs, b)
    ensures |b.systems| == |b.actions| + 1 && |b.systems[0].workers| == |cs|
    ensures forall w :: 0 <= w < |cs| ==> b.systems[0].workers[w] == Worker(Start, false)
  {
    hide StepAt, Inv;
  }

  /** By then the agent of worker `w` has exited with 0. */
  ghost predicate Succeeded(b: Behaviour, j: int, w: nat, task: Task) {
    exists i :: 0 <= i <= j && Has(b, i, w) && ExitedWith(PcOf(b.systems[i], w), task, 0)
  }

  /** By then something has gone wrong with the task. */
  ghost predicate Failed(b: Behaviour, j: int, w: nat, task: Task) {
    exists i :: 0 <= i <= j && Has(b, i, w) && FailsAt(b.systems[i].workers[w], task)
  }

  /** A place that only a success leads to has seen one, and so with failures. */
  ghost predicate Earned(b: Behaviour, j: int, w: nat, pc: Pc) {
    && (pc.AwaitReady? ==> Succeeded(b, j, w, pc.task))
    && (pc.AwaitExitReport? ==> Failed(b, j, w, pc.task))
    && (pc.Returned? && pc.done.Some? ==> match pc.result
        case ReviewReadyResult => Succeeded(b, j, w, pc.done.value)
        case UncertainResult => Failed(b, j, w, pc.done.value)
        case Idle => false)
  }

  /** The places a run comes from. */
  lemma ComesFrom(c: Config, a: Worker, z: Worker)
    requires Moves(c, a, z) && z.pc != a.pc
    ensures z.pc.AwaitReady? ==> ExitedWith(a.pc, z.pc.task, 0)
    ensures z.pc.AwaitExitReport? ==> FailsAt(a, z.pc.task)
    ensures z.pc.Returned? && z.pc.done.Some? ==>
      || (z.pc.result == ReviewReadyResult && a.pc.AwaitReady? && a.pc.task == z.pc.done.value)
      || (z.pc.result == UncertainResult && FailsAt(a, z.pc.done.value))
      || (z.pc.result == UncertainResult && a.pc.AwaitExitReport? && a.pc.task == z.pc.done.value)
  {}

  lemma EarnedOn(c: Config, b: Behaviour, j: nat, w: nat)
    requires Has(b, j, w) && Has(b, j + 1, w) && Moves(c, b.systems[j].workers[w], b.systems[j + 1].workers[w])
    requires Earned(b, j, w, PcOf(b.systems[j], w))
    ensures Earned(b, j + 1, w, PcOf(b.systems[j + 1], w))
  {
    hide Succeeded, Failed, Moves, ExitedWith, FailsAt;
    var x, z := b.systems[j].workers[w], b.systems[j + 1].workers[w];
    if z.pc != x.pc {
      ComesFrom(c, x, z);
    }
    if z.pc.AwaitReady? || z.pc.AwaitExitReport? {
      SeenNow(b, j, w, z.pc.task);
      Remembered(b, j, w, z.pc.task);
    } else if z.pc.Returned? && z.pc.done.Some? {
      SeenNow(b, j, w, z.pc.done.value);
      Remembered(b, j, w, z.pc.done.value);
    }
  }

  lemma Remembered(b: Behaviour, j: nat, w: nat, task: Task)
    ensures Succeeded(b, j, w, task) ==> Succeeded(b, j + 1, w, task)
    ensures Failed(b, j, w, task) ==> Failed(b, j + 1, w, task)
  {
    hide ExitedWith, FailsAt, Has;
  }

  lemma SeenNow(b: Behaviour, j: nat, w: nat, task: Task)
    requires Has(b, j, w)
    ensures ExitedWith(PcOf(b.systems[j], w), task, 0) ==> Succeeded(b, j, w, task)
    ensures FailsAt(b.systems[j].workers[w], task) ==> Failed(b, j, w, task)
  {
    hide ExitedWith, FailsAt;
  }

  lemma {:induction false} AllEarned(cs: seq<Config>, b: Behaviour, j: nat, w: nat)
    requires IsBehaviour(cs, b) && w < |cs| && Has(b, j, w)
    ensures Earned(b, j, w, PcOf(b.systems[j], w))
  {
    hide IsBehaviour, Moves, Succeeded, Failed;
    Steps(cs, b);
    if j > 0 {
      MovesAt(cs, b, j - 1, w);
      AllEarned(cs, b, j - 1, w);
      EarnedOn(cs[w], b, j - 1, w);
    }
  }

  lemma {:induction false} FleetStays(cs: seq<Config>, b: Behaviour, j: nat, w: nat)
    requires IsBehaviour(cs, b) && Has(b, j, w)
    ensures w < |cs|
  {
    hide Inv, WorkerProtocol.Step;
    if j > 0 {
      assert StepAt(cs, b, j - 1);
      if w < |cs| {
      } else {
        NoWorkerAdded(cs, b.systems[j - 1], b.actions[j - 1], b.systems[j]);
      }
    }
  }

  lemma NoWorkerAdded(cs: seq<Config>, s: System, a: Action, u: System)
    requires |cs| == |s.workers| && WorkerProtocol.Step(cs, s, a, u)
    ensures |u.workers| == |cs|
  {
    hide Apply, Allowed, CommandOf, OthersMay, MaySend, MayMove, Resume, Beating;
  }

  /** A run that ends with a task returns "review_ready" exactly when its agent exited with 0, and
      "uncertain" exactly when something went wrong on the way. */
  lemma ResultIsEarned(cs: seq<Config>, b: Behaviour, j: nat, w: nat, result: RunResult, task: Task)
    requires IsBehaviour(cs, b) && Has(b, j, w) && PcOf(b.systems[j], w) == Returned(result, Some(task))
    ensures result == ReviewReadyResult <==> Succeeded(b, j, w, task)
    ensures result == UncertainResult <==> Failed(b, j, w, task)
  {
    hide IsBehaviour;
    FleetStays(cs, b, j, w);
    AllEarned(cs, b, j, w);
    if i :| 0 <= i <= j && Has(b, i, w) && ExitedWith(PcOf(b.systems[i], w), task, 0) {
      SuccessLasts(cs, b, i, j, w, task);
    }
    if i :| 0 <= i <= j && Has(b, i, w) && FailsAt(b.systems[i].workers[w], task) {
      FailureLasts(cs, b, i, j, w, task);
    }
  }

  /** The exit code decides: after it is known, the run returns "review_ready" if and only if it is
      0, and nothing but "uncertain" otherwise. */
  lemma ExitCodeDecides(cs: seq<Config>, b: Behaviour, i: nat, j: nat, w: nat, task: Task, exitCode: int)
    requires IsBehaviour(cs, b) && i <= j && Has(b, i, w) && Has(b, j, w)
    requires ExitedWith(PcOf(b.systems[i], w), task, exitCode) && PcOf(b.systems[j], w).Returned?
    ensures PcOf(b.systems[j], w).done == Some(task)
    ensures PcOf(b.systems[j], w).result == if exitCode == 0 then ReviewReadyResult else UncertainResult
  {
    hide IsBehaviour;
    FleetStays(cs, b, i, w);
    if exitCode == 0 {
      SuccessLasts(cs, b, i, j, w, task);
    } else {
      FailureLasts(cs, b, i, j, w, task);
    }
  }

  /** After a failure a run returns "uncertain" or throws. A crash and a failed heartbeat, noticed
      when the agent ends, never make it throw. */
  lemma FailureEndsUncertain(cs: seq<Config>, b: Behaviour, i: nat, j: nat, w: nat, task: Task)
    requires IsBehaviour(cs, b) && i <= j && Has(b, i, w) && Has(b, j, w) && FailsAt(b.systems[i].workers[w], task)
    ensures PcOf(b.systems[j], w).Returned? ==> PcOf(b.systems[j], w) == Returned(UncertainResult, Some(task))
    ensures PcOf(b.systems[i], w).AwaitCrashReport? || PcOf(b.systems[i], w).Executing? ==> !PcOf(b.systems[j], w).Threw?
  {
    hide IsBehaviour;
    FleetStays(cs, b, i, w);
    FailureLasts(cs, b, i, j, w, task);
    if PcOf(b.systems[i], w).AwaitCrashReport? || PcOf(b.systems[i], w).Executing? {
      CrashLasts(cs, b, i, j, w, task);
    }
  }

  /** Where a run can be after a crash or a failed heartbeat. */
  predicate AfterCrash(w: Worker, task: Task) {
    || (w.pc == Executing(task) && w.heartbeatFailed)
    || (w.pc.AwaitCrashReport? && w.pc.task == task)
    || w.pc == Returned(UncertainResult, Some(task))
  }

  lemma CrashGoesOn(c: Config, a: Worker, z: Worker, task: Task)
    requires Moves(c, a, z) && AfterCrash(a, task)
    ensures AfterCrash(z, task)
  {}

  lemma {:induction false} CrashLasts(cs: seq<Config>, b: Behaviour, i: nat, j: nat, w: nat, task: Task)
    requires IsBehaviour(cs, b) && w < |cs| && i <= j && Has(b, i, w) && Has(b, j, w) && AfterCrash(b.systems[i].workers[w], task)
    ensures AfterCrash(b.systems[j].workers[w], task)
    decreases j
  {
    hide IsBehaviour, Moves, AfterCrash;
    if i < j {
      Steps(cs, b);
      MovesAt(cs, b, j - 1, w);
      CrashLasts(cs, b, i, j - 1, w, task);
      CrashGoesOn(cs[w], b.systems[j - 1].workers[w], b.systems[j].workers[w], task);
    }
  }

  // -------------------------------------------------------- requests for review

  ghost predicate ReadyPending(b: Behaviour, j: int, n: nat, w: nat, task: Task) {
    && 0 <= j < |b.systems| && n in b.systems[j].pending && b.systems[j].pending[n].sender == w
    && b.systems[j].pending[n].request.ReadyRequest? && b.systems[j].pending[n].request.task == task
  }

  /** A request pending after a step was pending before, or the step is a worker sending it. */
  lemma SentNow(cs: seq<Config>, s: System, a: Action, u: System, n: nat)
    requires |cs| == |s.workers| && WorkerProtocol.Step(cs, s, a, u) && n in u.pending
    requires n in s.pending ==> u.pending[n] != s.pending[n]
    ensures var Sent(w, request) := u.pending[n];
      w < |s.workers| && (request.BeatRequest? || exists next :: MaySend(PcOf(s, w), s.workers[w].heartbeatFailed, n, request, next))
  {
    hide Apply, Allowed, CommandOf, OthersMay, MaySend, MayMove, Resume, Beating;
    if a.Send? {
      assert MaySend(PcOf(s, a.w), s.workers[a.w].heartbeatFailed, a.n, a.request, a.then_);
    }
  }

  /** Whatever is lost or late on the network: a request for review is on its way only if the agent
      of the worker it is from exited with 0. */
  lemma {:induction false} ReadyNeedsSuccess(cs: seq<Config>, b: Behaviour, j: nat, n: nat, w: nat, task: Task)
    requires IsBehaviour(cs, b) && ReadyPending(b, j, n, w, task)
    ensures Succeeded(b, j, w, task)
  {
    hide IsBehaviour, StepAt, Succeeded;
    Steps(cs, b);
    if j == 0 {
      NothingPending(cs, b);
    } else if ReadyPending(b, j - 1, n, w, task) {
      ReadyNeedsSuccess(cs, b, j - 1, n, w, task);
      Remembered(b, j - 1, w, task);
    } else {
      StepIs(cs, b, j - 1);
      SentNow(cs, b.systems[j - 1], b.actions[j - 1], b.systems[j], n);
      SeenNow(b, j - 1, w, task);
      Remembered(b, j - 1, w, task);
    }
  }

  lemma NothingPending(cs: seq<Config>, b: Behaviour)
    requires IsBehaviour(cs, b)
    ensures |b.systems| > 0 && b.systems[0].pending == map[]
  {
    hide StepAt, Inv;
  }

  lemma StepIs(cs: seq<Config>, b: Behaviour, i: nat)
    requires IsBehaviour(cs, b) && i < |b.actions|
    ensures |b.systems| == |b.actions| + 1 && |cs| == |b.systems[i].workers| && WorkerProtocol.Step(cs, b.systems[i], b.actions[i], b.systems[i + 1])
  {
    hide WorkerProtocol.Step, Inv, Initial;
    assert StepAt(cs, b, i);
  }

  // -------------------------------------------------------------------- modes

  /** A worker is with work of its own identity mode only. */
  ghost predicate ModesOk(cs: seq<Config>, s: System) {
    |s.workers| == |cs| && forall w :: 0 <= w < |cs| ==> ModeOk(cs[w], s.tables, PcOf(s, w))
  }

  predicate ModeOk(c: Config, t: Tables, pc: Pc) {
    TaskAt(pc).Some? ==> TaskAt(pc).value.op in t.records && t.records[TaskAt(pc).value.op].mode == c.mode
  }

  lemma ModePersists(c: Config, t: Tables, now: int, cmd: Command, choice: Choice, pc: Pc)
    requires Inv(t) && Allowed(t, now, cmd, choice) && ModeOk(c, t, pc)
    ensures ModeOk(c, Apply(t, now, cmd, choice).0, pc)
  {
    hide Inv, Apply, Allowed;
    if TaskAt(pc).Some? {
      ApplyKeeps(t, now, cmd, choice);
      assert RowEvolves(t.records[TaskAt(pc).value.op], Apply(t, now, cmd, choice).0.records[TaskAt(pc).value.op]);
    }
  }

  /** What a worker resumes with is the task it had, or one just leased in its own mode. */
  lemma ResumedMode(c: Config, t: Tables, now: int, cmd: Command, choice: Choice, pc: Pc)
    requires Inv(t) && Allowed(t, now, cmd, choice) && ModeOk(c, t, pc)
    ensures ModeOk(c, Apply(t, now, cmd, choice).0, Resume(c, pc, Some(Apply(t, now, cmd, choice).1)))
  {
    hide Inv, Apply, Allowed;
    ModePersists(c, t, now, cmd, choice, pc);
    var o := Apply(t, now, cmd, choice).1;
    if pc.AwaitClaim? && o.Ok? && o.value.Lease? {
      LeaseMode(t, now, cmd, choice, o.value.op);
      ApplyKeeps(t, now, cmd, choice);
      assert RowEvolves(t.records[o.value.op], Apply(t, now, cmd, choice).0.records[o.value.op]);
    }
  }

  lemma LeaseMode(t: Tables, now: int, cmd: Command, choice: Choice, op: OperationId)
    requires Allowed(t, now, cmd, choice) && Apply(t, now, cmd, choice).1.Ok? && Apply(t, now, cmd, choice).1.value.Lease?
    requires Apply(t, now, cmd, choice).1.value.op == op
    ensures op in t.records && t.records[op].mode == Apply(t, now, cmd, choice).1.value.mode
  {
    hide Inv, Apply, Allowed;
    LedgerLeases.LeaseIsGiven(t, now, cmd, choice, op);
  }

  lemma ModesDelivered(cs: seq<Config>, s: System, n: nat, now: int, choice: Choice, heard: bool, u: System)
    requires Inv(s.tables) && ModesOk(cs, s) && n in s.pending && s.pending[n].sender < |cs| && Delivered(cs, s, n, now, choice, heard, u)
    ensures ModesOk(cs, u)
  {
    hide Inv, Apply, Allowed, CommandOf, Resume, ModeOk;
    var cmd := CommandOf(cs[s.pending[n].sender], s.pending[n].request);
    forall w | 0 <= w < |cs| ensures ModeOk(cs[w], u.tables, PcOf(u, w)) {
      ModePersists(cs[w], s.tables, now, cmd, choice, PcOf(s, w));
      ResumedMode(cs[w], s.tables, now, cmd, choice, PcOf(s, w));
    }
  }

  /** A worker that moves without an answer has no task that it did not have before. */
  lemma OwnMovesKeepTask(c: Config, pc: Pc, heartbeatFailed: bool, n: nat, request: Request, next: Pc)
    ensures MaySend(pc, heartbeatFailed, n, request, next) || MayMove(pc, heartbeatFailed, next) || next == Resume(c, pc, None) ==>
      TaskAt(next).None? || TaskAt(next) == TaskAt(pc)
  {}

  lemma StepKeepsModes(cs: seq<Config>, s: System, a: Action, u: System)
    requires |cs| == |s.workers| && Inv(s.tables) && ModesOk(cs, s) && WorkerProtocol.Step(cs, s, a, u)
    ensures ModesOk(cs, u)
  {
    hide Inv, Apply, Allowed, Delivered, OthersMay, MaySend, MayMove, Resume, Beating, ModeOk, TaskAt;
    match a
    case Deliver(n, now, choice, heard) => ModesDelivered(cs, s, n, now, choice, heard, u);
    case Other(now, cmd, choice) =>
      forall w | 0 <= w < |cs| ensures ModeOk(cs[w], u.tables, PcOf(u, w)) {
        ModePersists(cs[w], s.tables, now, cmd, choice, PcOf(s, w));
      }
    case Send(w, n, request, next) =>
      OwnMovesKeepTask(cs[w], PcOf(s, w), s.workers[w].heartbeatFailed, n, request, next);
      SameTaskSameMode(cs[w], s.tables, PcOf(s, w), next);
      assert forall v :: 0 <= v < |cs| && v != w ==> PcOf(u, v) == PcOf(s, v);
    case Local(w, next) =>
      OwnMovesKeepTask(cs[w], PcOf(s, w), s.workers[w].heartbeatFailed, 0, ClaimRequest, next);
      SameTaskSameMode(cs[w], s.tables, PcOf(s, w), next);
      assert forall v :: 0 <= v < |cs| && v != w ==> PcOf(u, v) == PcOf(s, v);
    case GiveUp(w) =>
      var next := Resume(cs[w], PcOf(s, w), None);
      OwnMovesKeepTask(cs[w], PcOf(s, w), s.workers[w].heartbeatFailed, 0, ClaimRequest, next);
      SameTaskSameMode(cs[w], s.tables, PcOf(s, w), next);
      assert forall v :: 0 <= v < |cs| && v != w ==> PcOf(u, v) == PcOf(s, v);
    case _ =>
      assert forall v :: 0 <= v < |cs| ==> PcOf(u, v) == PcOf(s, v);
  }

  lemma SameTaskSameMode(c: Config, t: Tables, pc: Pc, next: Pc)
    requires ModeOk(c, t, pc) && (TaskAt(next).None? || TaskAt(next) == TaskAt(pc))
    ensures ModeOk(c, t, next)
  {
    hide TaskAt;
  }

  /** In every behaviour a worker is only ever at work on operations of its own identity mode. */
  lemma {:induction false} ModeIsRespected(cs: seq<Config>, b: Behaviour, j: nat)
    requires IsBehaviour(cs, b) && j < |b.systems|
    ensures ModesOk(cs, b.systems[j])
  {
    hide Inv, WorkerProtocol.Step, StepAt, ModesOk, Initial, SystemInv;
    if j == 0 {
      StartModes(cs, b.systems[0]);
    } else {
      ModeIsRespected(cs, b, j - 1);
      StepIs(cs, b, j - 1);
      BehaviourKeepsInv(cs, b, j - 1);
      SystemTables(cs, b.systems[j - 1]);
      StepKeepsModes(cs, b.systems[j - 1], b.actions[j - 1], b.systems[j]);
    }
  }

  lemma SystemTables(cs: seq<Config>, s: System)
    requires SystemInv(cs, s)
    ensures Inv(s.tables)
  {
    hide Inv, WorkersOk, SentOk;
  }

  lemma StartModes(cs: seq<Config>, s: System)
    requires Initial(cs, s)
    ensures ModesOk(cs, s)
  {}
}
