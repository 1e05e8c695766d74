/** Any number of workers in `runOnce` (extensions/ompk-delegations/worker.ts:64-124) as clients of
    one ledger, over a network that may lose or delay any request or reply, while requesters,
    reviewers, the reconciler and clients under other worker names use the same ledger. */
module WorkerProtocol {
  import opened Basics
  import opened LedgerModel
  import opened LedgerRuns
  import opened LedgerTheorems

  /** The worker's own identity mode, and what the broker was configured with. */
  datatype Config = Config(workerId: string, mode: Mode, brokerMode: Mode)

  datatype Task = Task(op: OperationId, epoch: nat)

  datatype Request =
    | ClaimRequest
    | BeatRequest(task: Task)
    | ProgressRequest(task: Task, stage: string, message: string)
    | UncertainRequest(task: Task, message: string)
    | ReadyRequest(task: Task, summary: string)

  /** The broker's routes (extensions/ompk-delegations/broker.ts:71-106). */
  function CommandOf(c: Config, r: Request): Command {
    match r
    case ClaimRequest => Claim(c.workerId, 60000, c.brokerMode)
    case BeatRequest(task) => Beat(task.op, c.workerId, task.epoch, 60000)
    case ProgressRequest(task, stage, message) => Advance(task.op, c.workerId, task.epoch, stage, message)
    case UncertainRequest(task, message) => MarkUncertain(task.op, c.workerId, task.epoch, message)
    case ReadyRequest(task, summary) => ReadyWithoutProof(task.op, c.workerId, task.epoch, summary)
  }

  datatype RunResult = Idle | ReviewReadyResult | UncertainResult

  /** Where `runOnce` is. `Await…(n, …)` waits for the reply to request number `n`. */
  datatype Pc =
    | Start
    | AwaitClaim(n: nat)
    | HoldsTask(task: Task)
    | AwaitRefusal(n: nat, task: Task)
    | AwaitStarted(n: nat, task: Task)
    | Executing(task: Task)
    | AwaitCrashReport(n: nat, task: Task)
    | AwaitFinished(n: nat, task: Task, exitCode: int)
    | Exited(task: Task, exitCode: int)
    | AwaitExitReport(n: nat, task: Task)
    | AwaitReady(n: nat, task: Task)
    | Returned(result: RunResult, done: Option<Task>)
    | Threw

  datatype Worker = Worker(pc: Pc, heartbeatFailed: bool)

  /** A request and the worker it is from. */
  datatype Sent = Sent(sender: nat, request: Request)

  /** `pending`: requests on their way to the broker, also those nobody waits for any more.
      `beats`: heartbeats whose outcome the worker they are from does not know yet. */
  datatype System = System(tables: Tables, workers: seq<Worker>, pending: map<nat, Sent>, beats: map<nat, nat>)

  function Awaited(pc: Pc): Option<nat> {
    match pc
    case AwaitClaim(n) => Some(n)
    case AwaitRefusal(n, _) => Some(n)
    case AwaitStarted(n, _) => Some(n)
    case AwaitCrashReport(n, _) => Some(n)
    case AwaitFinished(n, _, _) => Some(n)
    case AwaitExitReport(n, _) => Some(n)
    case AwaitReady(n, _) => Some(n)
    case _ => None
  }

  /** The `await` at `pc` completes: with the broker's answer, or with `None` when the
      transport fails or times out. A refused request throws as well. */
  function Resume(c: Config, pc: Pc, answer: Option<Outcome>): Pc {
    var accepted := answer.Some? && answer.value.Ok?;
    match pc
    case AwaitClaim(_) =>
      if !accepted then Threw
      else (match answer.value.value
            case NoWork => Returned(Idle, None)
            case Lease(op, epoch, _, _, _, mode) => if mode != c.mode then Threw else HoldsTask(Task(op, epoch))
            case _ => Threw)
    case AwaitRefusal(_, task) => if accepted then Returned(UncertainResult, Some(task)) else Threw
    case AwaitStarted(_, task) => if accepted then Executing(task) else Threw
    case AwaitCrashReport(_, task) => Returned(UncertainResult, Some(task))
    case AwaitFinished(_, task, exitCode) => if accepted then Exited(task, exitCode) else Threw
    case AwaitExitReport(_, task) => if accepted then Returned(UncertainResult, Some(task)) else Threw
    case AwaitReady(_, task) => if accepted then Returned(ReviewReadyResult, Some(task)) else Threw
    case _ => pc
  }

  datatype Action =
    /** Worker `w` sends a request and waits for its reply. */
    | Send(w: nat, n: nat, request: Request, then_: Pc)
    /** Worker `w` moves without the network: a return or a throw. */
    | Local(w: nat, next: Pc)
    /** The heartbeat timer of worker `w` fires. */
    | SendBeat(w: nat, n: nat)
    /** A heartbeat's reply was an error, was lost, or never came. */
    | BeatFails(n: nat)
    /** The broker carries a pending request out; `heard` if the reply reaches the worker. */
    | Deliver(n: nat, now: int, choice: Choice, heard: bool)
    /** A request is lost before it reaches the broker. */
    | Drop(n: nat)
    /** Worker `w` stops waiting; the request itself may still arrive. */
    | GiveUp(w: nat)
    /** Someone else's transaction. */
    | Other(now: int, cmd: Command, choice: Choice)

  /** What `runOnce` sends from where it is. */
  predicate MaySend(pc: Pc, heartbeatFailed: bool, n: nat, request: Request, next: Pc) {
    match pc
    case Start => request == ClaimRequest && next == AwaitClaim(n)
    case HoldsTask(task) =>
      || (request.UncertainRequest? && request.task == task && next == AwaitRefusal(n, task))
      || (request.ProgressRequest? && request.task == task && request.stage == "implementing" && next == AwaitStarted(n, task))
    case Executing(task) =>
      || (request.UncertainRequest? && request.task == task && next == AwaitCrashReport(n, task))
      || (!heartbeatFailed && request.ProgressRequest? && request.task == task && request.stage == "implemented"
          && next.AwaitFinished? && next.n == n && next.task == task)
    case Exited(task, exitCode) =>
      if exitCode != 0 then request.UncertainRequest? && request.task == task && next == AwaitExitReport(n, task)
      else request.ReadyRequest? && request.task == task && next == AwaitReady(n, task)
    case _ => false
  }

  /** A missing executable or an unwritable log throws; a failed heartbeat ends the run. */
  predicate MayMove(pc: Pc, heartbeatFailed: bool, next: Pc) {
    match pc
    case HoldsTask(_) => next == Threw
    case Executing(task) => if heartbeatFailed then next == Returned(UncertainResult, Some(task)) else next == Threw
    case _ => false
  }

  /** The interval is cleared only after a crash has been reported. */
  predicate Beating(pc: Pc) {
    pc.Executing? || pc.AwaitCrashReport?
  }

  function TaskAt(pc: Pc): Option<Task> {
    match pc
    case HoldsTask(task) => Some(task)
    case AwaitRefusal(_, task) => Some(task)
    case AwaitStarted(_, task) => Some(task)
    case Executing(task) => Some(task)
    case AwaitCrashReport(_, task) => Some(task)
    case AwaitFinished(_, task, _) => Some(task)
    case Exited(task, _) => Some(task)
    case AwaitExitReport(_, task) => Some(task)
    case AwaitReady(_, task) => Some(task)
    case Returned(_, done) => done
    case _ => None
  }

  function PcOf(s: System, w: nat): Pc
    requires w < |s.workers|
  {
    s.workers[w].pc
  }

  function At(s: System, w: nat, pc: Pc): System
    requires w < |s.workers|
  {
    s.(workers := s.workers[w := s.workers[w].(pc := pc)])
  }

  predicate Unused(s: System, n: nat) {
    n !in s.pending && n !in s.beats
  }

  ghost predicate Step(cs: seq<Config>, s: System, a: Action, u: System)
    requires |cs| == |s.workers|
  {
    match a
    case Send(w, n, request, next) =>
      && w < |s.workers| && Unused(s, n) && MaySend(PcOf(s, w), s.workers[w].heartbeatFailed, n, request, next)
      && u == At(s, w, next).(pending := s.pending[n := Sent(w, request)])
    case Local(w, next) =>
      w < |s.workers| && MayMove(PcOf(s, w), s.workers[w].heartbeatFailed, next) && u == At(s, w, next)
    case SendBeat(w, n) =>
      && w < |s.workers| && Beating(PcOf(s, w)) && Unused(s, n) && Awaited(PcOf(s, w)) != Some(n)
      && u == s.(pending := s.pending[n := Sent(w, BeatRequest(TaskAt(PcOf(s, w)).value))], beats := s.beats[n := w])
    case BeatFails(n) =>
      && n in s.beats && s.beats[n] < |s.workers|
      && u == s.(beats := s.beats - {n}, workers := s.workers[s.beats[n] := s.workers[s.beats[n]].(heartbeatFailed := true)])
    case Deliver(n, now, choice, heard) => n in s.pending && s.pending[n].sender < |cs| && Delivered(cs, s, n, now, choice, heard, u)
    case Drop(n) => n in s.pending && u == s.(pending := s.pending - {n})
    case GiveUp(w) =>
      w < |s.workers| && Awaited(PcOf(s, w)).Some? && u == At(s, w, Resume(cs[w], PcOf(s, w), None))
    case Other(now, cmd, choice) =>
      && Allowed(s.tables, now, cmd, choice) && OthersMay(cs, cmd)
      && u == s.(tables := Apply(s.tables, now, cmd, choice).0)
  }

  ghost predicate Delivered(cs: seq<Config>, s: System, n: nat, now: int, choice: Choice, heard: bool, u: System)
    requires |cs| == |s.workers| && n in s.pending && s.pending[n].sender < |cs|
  {
    var Sent(w, request) := s.pending[n];
    var cmd := CommandOf(cs[w], request);
    && Allowed(s.tables, now, cmd, choice)
    && var (tables, answer) := Apply(s.tables, now, cmd, choice);
       var t := if heard && Awaited(PcOf(s, w)) == Some(n) then At(s, w, Resume(cs[w], PcOf(s, w), Some(answer))) else s;
       u == t.(tables := tables, pending := s.pending - {n})
  }

  /** Under which worker name a command runs. */
  function Issuer(cmd: Command): Option<string> {
    match cmd
    case Claim(worker, _, _) => Some(worker)
    case Beat(_, worker, _, _) => Some(worker)
    case Advance(_, worker, _, _, _) => Some(worker)
    case SubmitReview(_, worker, _, _) => Some(worker)
    case MarkUncertain(_, worker, _, _) => Some(worker)
    case ReadyWithoutProof(_, worker, _, _) => Some(worker)
    case _ => None
  }

  /** The names of these workers are theirs alone. */
  predicate OthersMay(cs: seq<Config>, cmd: Command) {
    Issuer(cmd).Some? ==> forall w :: 0 <= w < |cs| ==> cs[w].workerId != Issuer(cmd).value
  }

  // ------------------------------------------------------------ invariant

  predicate InState(t: Tables, op: OperationId, states: set<WorkState>) {
    op in t.records && t.records[op].state in states
  }

  /** The operation has been leased, and is with no worker of another name. */
  predicate LeasedTo(t: Tables, op: OperationId, workerId: string) {
    op in t.records && t.records[op].state != Queued && t.records[op].workerId in {None, Some(workerId)}
  }

  /** What each place in `runOnce` knows about the record, whoever else is at work. */
  predicate Knows(t: Tables, workerId: string, pc: Pc) {
    && (TaskAt(pc).Some? ==> LeasedTo(t, TaskAt(pc).value.op, workerId))
    && match pc
       case Returned(result, done) =>
         (match result
          case Idle => done.None?
          case ReviewReadyResult => done.Some? && InState(t, done.value.op, {ReviewReady, Satisfied})
          case UncertainResult => done.Some? && InState(t, done.value.op, {Running, Uncertain}))
       case AwaitReady(_, task) => true
       case _ => TaskAt(pc).Some? ==> InState(t, TaskAt(pc).value.op, {Running, Uncertain})
  }

  /** The requests still on their way, given where `runOnce` is: a "ready" only while
      waiting for its reply, and a request awaited is the one that place sends. */
  predicate MayBePending(pc: Pc, n: nat, r: Request) {
    && (r.ReadyRequest? ==> pc.Threw? || (pc.AwaitReady? && pc.n == n && r.task == pc.task))
    && (Awaited(pc) == Some(n) ==>
          match pc
          case AwaitClaim(_) => r.ClaimRequest?
          case AwaitReady(_, task) => r.ReadyRequest? && r.task == task
          case _ => !r.ClaimRequest? && !r.ReadyRequest?)
  }

  predicate Holds(pc: Pc, op: OperationId) {
    TaskAt(pc).Some? && TaskAt(pc).value.op == op
  }

  /** Two workers hold different operations. */
  predicate Apart(a: Pc, b: Pc) {
    TaskAt(a).Some? ==> !Holds(b, TaskAt(a).value.op)
  }

  predicate NotAbout(r: Request, pc: Pc) {
    !r.ClaimRequest? ==> !Holds(pc, r.task.op)
  }

  /** A pending request is about an operation that is leased, and that no other worker holds. */
  ghost predicate SentOk(cs: seq<Config>, s: System, n: nat)
    requires n in s.pending
  {
    var Sent(sender, r) := s.pending[n];
    && sender < |s.workers| == |cs| && MayBePending(PcOf(s, sender), n, r)
    && (!r.ClaimRequest? ==> LeasedTo(s.tables, r.task.op, cs[sender].workerId))
    && forall v :: 0 <= v < |s.workers| && v != sender ==> NotAbout(r, PcOf(s, v))
  }

  ghost predicate WorkersOk(cs: seq<Config>, s: System) {
    && |s.workers| == |cs|
    && (forall w :: 0 <= w < |cs| ==> Knows(s.tables, cs[w].workerId, PcOf(s, w)))
    && forall w, v :: 0 <= w < |cs| && 0 <= v < |cs| && w != v ==> Apart(PcOf(s, w), PcOf(s, v))
  }

  ghost predicate SystemInv(cs: seq<Config>, s: System) {
    && Inv(s.tables) && WorkersOk(cs, s)
    && forall n :: n in s.pending ==> SentOk(cs, s, n)
  }

  predicate Initial(cs: seq<Config>, s: System) {
    && |s.workers| == |cs| && s.pending == map[] && s.beats == map[]
    && forall w :: 0 <= w < |s.workers| ==> s.workers[w] == Worker(Start, false)
  }

  // ------------------------------------------------------------- transactions

  /** Only a worker's own review commands take a record out of {running, uncertain}. */
  lemma StaysUnfinished(t: Tables, now: int, cmd: Command, choice: Choice, op: OperationId)
    requires Inv(t) && Allowed(t, now, cmd, choice) && InState(t, op, {Running, Uncertain})
    requires !(cmd.SubmitReview? && cmd.op == op) && !(cmd.ReadyWithoutProof? && cmd.op == op)
    ensures InState(Apply(t, now, cmd, choice).0, op, {Running, Uncertain})
  {
    hide Inv, Blank, GoalKeyOf, DecisionOf, IsLatest, ValidSubmissions, CertifiableFor, InsertReceipts, MarkVerified;
    if cmd.ReconcileExpired? { ExpireAllRows(t, now, choice.order); }
  }

  lemma RecordsPersist(t: Tables, now: int, cmd: Command, choice: Choice, op: OperationId)
    requires Inv(t) && Allowed(t, now, cmd, choice) && op in t.records
    ensures Inv(Apply(t, now, cmd, choice).0)
    ensures op in Apply(t, now, cmd, choice).0.records
    ensures InState(t, op, {ReviewReady, Satisfied}) ==> InState(Apply(t, now, cmd, choice).0, op, {ReviewReady, Satisfied})
  {
    hide Apply, Allowed, Inv, SameWork;
    ApplyKeeps(t, now, cmd, choice);
    assert RowEvolves(t.records[op], Apply(t, now, cmd, choice).0.records[op]);
  }

  /** Once leased, a record keeps its worker, and is never queued again. */
  lemma LeaseStays(t: Tables, now: int, cmd: Command, choice: Choice, op: OperationId, workerId: string)
    requires Inv(t) && Allowed(t, now, cmd, choice) && LeasedTo(t, op, workerId)
    ensures LeasedTo(Apply(t, now, cmd, choice).0, op, workerId)
  {
    hide Inv, Blank, GoalKeyOf, DecisionOf, IsLatest, ValidSubmissions, CertifiableFor, InsertReceipts, MarkVerified;
    if cmd.ReconcileExpired? { ExpireAllRows(t, now, choice.order); }
  }

  /** A worker command under another name changes nothing: the lease is not its own. */
  lemma ForeignIsRefused(t: Tables, now: int, cmd: Command, choice: Choice, op: OperationId, workerId: string)
    requires WorkerCommand(cmd, op) && LeasedTo(t, op, workerId) && Issuer(cmd) != Some(workerId)
    ensures Apply(t, now, cmd, choice).0 == t
  {
    hide Blank, ValidSubmissions;
  }

  /** Any transaction leaves what `pc` knows true, unless it reviews the worker's own operation. */
  lemma KnowsPersists(t: Tables, now: int, cmd: Command, choice: Choice, workerId: string, pc: Pc)
    requires Inv(t) && Knows(t, workerId, pc) && Allowed(t, now, cmd, choice)
    requires cmd.SubmitReview? ==> !Holds(pc, cmd.op)
    requires cmd.ReadyWithoutProof? ==> !Holds(pc, cmd.op) || pc.AwaitReady? || pc.Threw?
    ensures Knows(Apply(t, now, cmd, choice).0, workerId, pc)
  {
    hide Inv, Apply, Allowed, LeasedTo;
    if TaskAt(pc).Some? {
      var op := TaskAt(pc).value.op;
      LeaseStays(t, now, cmd, choice, op, workerId);
      if op in t.records { RecordsPersist(t, now, cmd, choice, op); }
      if InState(t, op, {Running, Uncertain}) && !pc.AwaitReady? { StaysUnfinished(t, now, cmd, choice, op); }
    }
  }

  lemma ApplyKeepsInv(t: Tables, now: int, cmd: Command, choice: Choice)
    requires Inv(t) && Allowed(t, now, cmd, choice)
    ensures Inv(Apply(t, now, cmd, choice).0)
  {
    hide Inv, Apply, Allowed;
    ApplyKeeps(t, now, cmd, choice);
  }

  /** Someone else's command leaves every worker's knowledge true. */
  lemma OtherKeepsKnows(cs: seq<Config>, t: Tables, now: int, cmd: Command, choice: Choice, w: nat, pc: Pc)
    requires Inv(t) && w < |cs| && Knows(t, cs[w].workerId, pc) && Allowed(t, now, cmd, choice) && OthersMay(cs, cmd)
    ensures Knows(Apply(t, now, cmd, choice).0, cs[w].workerId, pc)
  {
    hide Inv, Apply, Allowed;
    if TaskAt(pc).Some? && WorkerCommand(cmd, TaskAt(pc).value.op) {
      ForeignIsRefused(t, now, cmd, choice, TaskAt(pc).value.op, cs[w].workerId);
    } else {
      KnowsPersists(t, now, cmd, choice, cs[w].workerId, pc);
    }
  }

  // ----------------------------------------------------------------- delivery

  /** The reply the worker hears moves it to a place whose knowledge holds. */
  lemma ReplyIsKnown(c: Config, t: Tables, now: int, choice: Choice, pc: Pc, n: nat, r: Request)
    requires Inv(t) && Knows(t, c.workerId, pc) && Awaited(pc) == Some(n) && MayBePending(pc, n, r)
    requires Allowed(t, now, CommandOf(c, r), choice)
    ensures var (u, answer) := Apply(t, now, CommandOf(c, r), choice); Knows(u, c.workerId, Resume(c, pc, Some(answer)))
  {
    hide Apply, Allowed, Inv, LeasedTo;
    KnowsPersists(t, now, CommandOf(c, r), choice, c.workerId, pc);
    if pc.AwaitClaim? {
      ClaimReply(c, t, now, choice);
    } else if pc.AwaitReady? {
      ReadyReply(c, t, now, choice, r);
    }
  }

  /** A lease is new: its operation was queued. */
  lemma ClaimReply(c: Config, t: Tables, now: int, choice: Choice)
    requires Allowed(t, now, CommandOf(c, ClaimRequest), choice)
    ensures var (u, o) := Apply(t, now, CommandOf(c, ClaimRequest), choice);
            o.Ok? && o.value.Lease? ==>
              InState(u, o.value.op, {Running, Uncertain}) && LeasedTo(u, o.value.op, c.workerId) && InState(t, o.value.op, {Queued})
  {}

  lemma ReadyReply(c: Config, t: Tables, now: int, choice: Choice, r: Request)
    requires r.ReadyRequest?
    ensures var (u, o) := Apply(t, now, CommandOf(c, r), choice);
            o.Ok? ==> InState(u, r.task.op, {ReviewReady, Satisfied})
  {
    hide Blank;
  }

  /** Where a reply takes a worker, it holds what it held, nothing, or what it has just claimed. */
  lemma ResumeHolds(c: Config, pc: Pc, answer: Option<Outcome>)
    requires Awaited(pc).Some?
    ensures var next := Resume(c, pc, answer);
            || TaskAt(next).None? || TaskAt(next) == TaskAt(pc)
            || (pc.AwaitClaim? && answer.Some? && answer.value.Ok? && answer.value.value.Lease? && Holds(next, answer.value.value.op))
    ensures Awaited(Resume(c, pc, answer)).None?
  {}

  /** A pending request is no review of another worker's operation. */
  lemma DeliveryHarmless(cs: seq<Config>, s: System, n: nat, v: nat)
    requires n in s.pending && SentOk(cs, s, n) && v < |cs|
    ensures var Sent(sender, r) := s.pending[n]; var cmd := CommandOf(cs[sender], r);
            && (cmd.SubmitReview? ==> !Holds(PcOf(s, v), cmd.op))
            && (cmd.ReadyWithoutProof? ==> !Holds(PcOf(s, v), cmd.op) || PcOf(s, v).AwaitReady? || PcOf(s, v).Threw?)
  {
    assert v != s.pending[n].sender ==> NotAbout(s.pending[n].request, PcOf(s, v));
  }

  lemma DeliverKeepsWorkers(cs: seq<Config>, s: System, n: nat, now: int, choice: Choice, heard: bool, u: System)
    requires SystemInv(cs, s) && n in s.pending && s.pending[n].sender < |cs| && Delivered(cs, s, n, now, choice, heard, u)
    ensures WorkersOk(cs, u)
  {
    hide Inv, Apply, Allowed, Knows, MayBePending, Holds, CommandOf, Resume;
    var Sent(sender, r) := s.pending[n];
    var cmd := CommandOf(cs[sender], r);
    assert SentOk(cs, s, n);
    forall w | 0 <= w < |cs| ensures Knows(u.tables, cs[w].workerId, PcOf(u, w)) {
      DeliveryHarmless(cs, s, n, w);
      KnowsPersists(s.tables, now, cmd, choice, cs[w].workerId, PcOf(s, w));
      if w == sender && heard && Awaited(PcOf(s, sender)) == Some(n) {
        ReplyIsKnown(cs[sender], s.tables, now, choice, PcOf(s, sender), n, r);
      }
    }
    forall w, v | 0 <= w < |cs| && 0 <= v < |cs| && w != v ensures Apart(PcOf(u, w), PcOf(u, v)) {
      DeliveredApart(cs, s, n, now, choice, heard, u, w, v);
    }
  }

  lemma DeliveredApart(cs: seq<Config>, s: System, n: nat, now: int, choice: Choice, heard: bool, u: System, w: nat, v: nat)
    requires SystemInv(cs, s) && n in s.pending && s.pending[n].sender < |cs| && Delivered(cs, s, n, now, choice, heard, u)
    requires w < |cs| && v < |cs| && w != v
    ensures Apart(PcOf(u, w), PcOf(u, v))
  {
    hide Inv, Apply, Allowed, CommandOf, Resume;
    var Sent(sender, r) := s.pending[n];
    assert SentOk(cs, s, n);
    assert Apart(PcOf(s, w), PcOf(s, v));
    assert Knows(s.tables, cs[w].workerId, PcOf(s, w)) && Knows(s.tables, cs[v].workerId, PcOf(s, v));
    if heard && Awaited(PcOf(s, sender)) == Some(n) {
      NewTaskIsNew(cs[sender], s.tables, now, choice, PcOf(s, sender), n, r);
    }
  }

  /** What a worker holds after a reply it held before, or nobody can. */
  lemma NewTaskIsNew(c: Config, t: Tables, now: int, choice: Choice, pc: Pc, n: nat, r: Request)
    requires Awaited(pc) == Some(n) && MayBePending(pc, n, r) && Allowed(t, now, CommandOf(c, r), choice)
    ensures var next := Resume(c, pc, Some(Apply(t, now, CommandOf(c, r), choice).1));
            TaskAt(next).Some? && TaskAt(next) != TaskAt(pc) ==> InState(t, TaskAt(next).value.op, {Queued})
  {
    hide Apply, Allowed;
    ResumeHolds(c, pc, Some(Apply(t, now, CommandOf(c, r), choice).1));
    if pc.AwaitClaim? { ClaimReply(c, t, now, choice); }
  }

  lemma DeliverKeepsSent(cs: seq<Config>, s: System, n: nat, now: int, choice: Choice, heard: bool, u: System, m: nat)
    requires SystemInv(cs, s) && n in s.pending && s.pending[n].sender < |cs| && Delivered(cs, s, n, now, choice, heard, u)
    requires m in u.pending
    ensures SentOk(cs, u, m)
  {
    hide Inv, Apply, Allowed, CommandOf, Resume, Knows, LeasedTo;
    var Sent(sender, r) := s.pending[n];
    assert SentOk(cs, s, n) && SentOk(cs, s, m);
    var Sent(from, q) := s.pending[m];
    if !q.ClaimRequest? { LeaseStays(s.tables, now, CommandOf(cs[sender], r), choice, q.task.op, cs[from].workerId); }
    forall v | 0 <= v < |u.workers| && v != from ensures NotAbout(q, PcOf(u, v)) {
      assert NotAbout(q, PcOf(s, v));
      if heard && Awaited(PcOf(s, sender)) == Some(n) && v == sender {
        NewTaskIsNew(cs[sender], s.tables, now, choice, PcOf(s, sender), n, r);
        NotAboutNew(s.tables, q, cs[from].workerId, PcOf(s, sender), PcOf(u, sender));
      }
    }
    if heard && Awaited(PcOf(s, sender)) == Some(n) && from == sender {
      ResumedPending(cs[sender], PcOf(s, sender), n, r, Some(Apply(s.tables, now, CommandOf(cs[sender], r), choice).1), m, q);
    }
  }

  lemma NotAboutNew(t: Tables, q: Request, workerId: string, pc: Pc, next: Pc)
    requires NotAbout(q, pc) && (!q.ClaimRequest? ==> LeasedTo(t, q.task.op, workerId))
    requires TaskAt(next).Some? && TaskAt(next) != TaskAt(pc) ==> InState(t, TaskAt(next).value.op, {Queued})
    ensures NotAbout(q, next)
  {}

  /** Another request of the worker may still be on its way when the worker moves on. */
  lemma ResumedPending(c: Config, pc: Pc, n: nat, r: Request, answer: Option<Outcome>, m: nat, q: Request)
    requires Awaited(pc) == Some(n) && MayBePending(pc, m, q) && m != n
    ensures MayBePending(Resume(c, pc, answer), m, q)
  {}

  lemma DeliverKeepsInv(cs: seq<Config>, s: System, n: nat, now: int, choice: Choice, heard: bool, u: System)
    requires SystemInv(cs, s) && n in s.pending && s.pending[n].sender < |cs| && Delivered(cs, s, n, now, choice, heard, u)
    ensures SystemInv(cs, u)
  {
    hide Inv, Apply, Allowed, WorkersOk, SentOk, CommandOf, Resume;
    ApplyKeepsInv(s.tables, now, CommandOf(cs[s.pending[n].sender], s.pending[n].request), choice);
    DeliverKeepsWorkers(cs, s, n, now, choice, heard, u);
    forall m | m in u.pending ensures SentOk(cs, u, m) {
      DeliverKeepsSent(cs, s, n, now, choice, heard, u, m);
    }
  }

  // -------------------------------------------------------------- other steps

  lemma OtherKeepsInv(cs: seq<Config>, s: System, now: int, cmd: Command, choice: Choice)
    requires SystemInv(cs, s) && Allowed(s.tables, now, cmd, choice) && OthersMay(cs, cmd)
    ensures SystemInv(cs, s.(tables := Apply(s.tables, now, cmd, choice).0))
  {
    hide Inv, Apply, Allowed, Knows, OthersMay, MayBePending, Holds, LeasedTo;
    var u := s.(tables := Apply(s.tables, now, cmd, choice).0);
    ApplyKeepsInv(s.tables, now, cmd, choice);
    forall w | 0 <= w < |cs| ensures Knows(u.tables, cs[w].workerId, PcOf(u, w)) {
      OtherKeepsKnows(cs, s.tables, now, cmd, choice, w, PcOf(s, w));
    }
    forall n | n in u.pending ensures SentOk(cs, u, n) {
      assert SentOk(cs, s, n);
      var Sent(sender, r) := s.pending[n];
      if !r.ClaimRequest? { LeaseStays(s.tables, now, cmd, choice, r.task.op, cs[sender].workerId); }
    }
  }

  /** A worker moves on, still holding its task or letting it go, with its requests behind it. */
  ghost predicate MovesOn(s: System, w: nat, next: Pc)
    requires w < |s.workers|
  {
    && (TaskAt(next).None? || TaskAt(next) == TaskAt(PcOf(s, w)))
    && forall n :: n in s.pending && s.pending[n].sender == w ==> MayBePending(next, n, s.pending[n].request)
  }

  lemma MoveKeepsInv(cs: seq<Config>, s: System, w: nat, next: Pc)
    requires SystemInv(cs, s) && w < |s.workers| && MovesOn(s, w, next) && Knows(s.tables, cs[w].workerId, next)
    ensures SystemInv(cs, At(s, w, next))
  {
    hide Inv, Knows, MayBePending, LeasedTo;
    var u := At(s, w, next);
    forall v, z | 0 <= v < |cs| && 0 <= z < |cs| && v != z ensures Apart(PcOf(u, v), PcOf(u, z)) {
      assert Apart(PcOf(s, v), PcOf(s, z));
    }
    forall n | n in u.pending ensures SentOk(cs, u, n) {
      assert SentOk(cs, s, n);
      forall v | 0 <= v < |u.workers| && v != u.pending[n].sender ensures NotAbout(u.pending[n].request, PcOf(u, v)) {
        assert NotAbout(u.pending[n].request, PcOf(s, v));
      }
    }
  }

  lemma SendingKeepsInv(cs: seq<Config>, s: System, n: nat, w: nat, r: Request)
    requires SystemInv(cs, s) && n !in s.pending && w < |s.workers| && MayBePending(PcOf(s, w), n, r)
    requires !r.ClaimRequest? ==> TaskAt(PcOf(s, w)) == Some(r.task)
    ensures SystemInv(cs, s.(pending := s.pending[n := Sent(w, r)]))
  {
    hide Inv, MayBePending, LeasedTo;
    var u := s.(pending := s.pending[n := Sent(w, r)]);
    assert Knows(s.tables, cs[w].workerId, PcOf(s, w));
    forall m | m in u.pending ensures SentOk(cs, u, m) {
      if m != n {
        assert SentOk(cs, s, m);
        assert forall v :: 0 <= v < |s.workers| ==> PcOf(u, v) == PcOf(s, v);
      } else {
        assert forall v :: 0 <= v < |s.workers| && v != w ==> Apart(PcOf(s, w), PcOf(s, v)) && PcOf(u, v) == PcOf(s, v);
      }
    }
  }

  lemma SendMovesOn(cs: seq<Config>, s: System, w: nat, n: nat, request: Request, next: Pc)
    requires SystemInv(cs, s) && w < |s.workers| && Unused(s, n) && MaySend(PcOf(s, w), s.workers[w].heartbeatFailed, n, request, next)
    ensures MovesOn(s, w, next) && Knows(s.tables, cs[w].workerId, next) && MayBePending(next, n, request)
    ensures !request.ClaimRequest? ==> TaskAt(next) == Some(request.task)
  {
    hide Inv, LeasedTo;
    assert Knows(s.tables, cs[w].workerId, PcOf(s, w));
    forall m | m in s.pending && s.pending[m].sender == w ensures MayBePending(next, m, s.pending[m].request) {
      assert SentOk(cs, s, m);
    }
  }

  lemma SendKeepsInv(cs: seq<Config>, s: System, w: nat, n: nat, request: Request, next: Pc)
    requires SystemInv(cs, s) && w < |s.workers| && Unused(s, n) && MaySend(PcOf(s, w), s.workers[w].heartbeatFailed, n, request, next)
    ensures SystemInv(cs, At(s, w, next).(pending := s.pending[n := Sent(w, request)]))
  {
    hide SystemInv, MaySend, MayBePending, MovesOn, Knows;
    SendMovesOn(cs, s, w, n, request, next);
    MoveKeepsInv(cs, s, w, next);
    SendingKeepsInv(cs, At(s, w, next), n, w, request);
  }

  lemma LocalKeepsInv(cs: seq<Config>, s: System, w: nat, next: Pc)
    requires SystemInv(cs, s) && w < |s.workers| && MayMove(PcOf(s, w), s.workers[w].heartbeatFailed, next)
    ensures SystemInv(cs, At(s, w, next))
  {
    hide Inv, LeasedTo;
    assert Knows(s.tables, cs[w].workerId, PcOf(s, w));
    forall m | m in s.pending && s.pending[m].sender == w ensures MayBePending(next, m, s.pending[m].request) {
      assert SentOk(cs, s, m);
    }
    MoveKeepsInv(cs, s, w, next);
  }

  lemma GiveUpKeepsInv(cs: seq<Config>, s: System, w: nat)
    requires SystemInv(cs, s) && w < |s.workers| && Awaited(PcOf(s, w)).Some?
    ensures SystemInv(cs, At(s, w, Resume(cs[w], PcOf(s, w), None)))
  {
    hide Inv, LeasedTo;
    var next := Resume(cs[w], PcOf(s, w), None);
    assert Knows(s.tables, cs[w].workerId, PcOf(s, w));
    forall m | m in s.pending && s.pending[m].sender == w ensures MayBePending(next, m, s.pending[m].request) {
      assert SentOk(cs, s, m);
    }
    MoveKeepsInv(cs, s, w, next);
  }

  lemma BeatKeepsInv(cs: seq<Config>, s: System, w: nat, n: nat)
    requires SystemInv(cs, s) && w < |s.workers| && Beating(PcOf(s, w)) && Unused(s, n) && Awaited(PcOf(s, w)) != Some(n)
    ensures SystemInv(cs, s.(pending := s.pending[n := Sent(w, BeatRequest(TaskAt(PcOf(s, w)).value))], beats := s.beats[n := w]))
  {
    hide Inv, LeasedTo;
    SendingKeepsInv(cs, s, n, w, BeatRequest(TaskAt(PcOf(s, w)).value));
    var t := s.(pending := s.pending[n := Sent(w, BeatRequest(TaskAt(PcOf(s, w)).value))]);
    SamePlaces(cs, t, t.(beats := s.beats[n := w]));
  }

  /** The invariant does not see heartbeat outcomes, nor requests that are gone. */
  lemma SamePlaces(cs: seq<Config>, s: System, u: System)
    requires SystemInv(cs, s) && u.tables == s.tables && |u.workers| == |s.workers|
    requires forall w :: 0 <= w < |s.workers| ==> PcOf(u, w) == PcOf(s, w)
    requires forall n :: n in u.pending ==> n in s.pending && u.pending[n] == s.pending[n]
    ensures SystemInv(cs, u)
  {
    hide Inv, Knows, MayBePending, LeasedTo, Holds;
    forall n | n in u.pending ensures SentOk(cs, u, n) {
      assert SentOk(cs, s, n);
    }
  }

  lemma StepKeepsInv(cs: seq<Config>, s: System, a: Action, u: System)
    requires SystemInv(cs, s) && |cs| == |s.workers| && Step(cs, s, a, u)
    ensures SystemInv(cs, u)
  {
    hide SystemInv, Delivered, MaySend, MayMove, Apply, Allowed, OthersMay;
    match a
    case Send(w, n, request, next) => SendKeepsInv(cs, s, w, n, request, next);
    case Local(w, next) => LocalKeepsInv(cs, s, w, next);
    case SendBeat(w, n) => BeatKeepsInv(cs, s, w, n);
    case BeatFails(n) => SamePlaces(cs, s, u);
    case Deliver(n, now, choice, heard) => DeliverKeepsInv(cs, s, n, now, choice, heard, u);
    case Drop(n) => SamePlaces(cs, s, u);
    case GiveUp(w) => GiveUpKeepsInv(cs, s, w);
    case Other(now, cmd, choice) => OtherKeepsInv(cs, s, now, cmd, choice);
  }

  // -------------------------------------------------------------- behaviours

  /** A behaviour of the workers and everything around them, one action after the other. */
  datatype Behaviour = Behaviour(systems: seq<System>, actions: seq<Action>)

  ghost predicate IsBehaviour(cs: seq<Config>, b: Behaviour) {
    && |b.systems| == |b.actions| + 1
    && Initial(cs, b.systems[0]) && Inv(b.systems[0].tables)
    && forall i :: 0 <= i < |b.actions| ==> StepAt(cs, b, i)
  }

  ghost predicate StepAt(cs: seq<Config>, b: Behaviour, i: nat)
    requires i < |b.actions| && i + 1 < |b.systems|
  {
    |cs| == |b.systems[i].workers| && Step(cs, b.systems[i], b.actions[i], b.systems[i + 1])
  }

  lemma {:induction false} BehaviourKeepsInv(cs: seq<Config>, b: Behaviour, i: nat)
    requires IsBehaviour(cs, b) && i < |b.systems|
    ensures SystemInv(cs, b.systems[i])
  {
    hide Step, SystemInv, Inv;
    if i == 0 {
      InitialInv(cs, b.systems[0]);
    } else {
      BehaviourKeepsInv(cs, b, i - 1);
      assert StepAt(cs, b, i - 1);
      StepKeepsInv(cs, b.systems[i - 1], b.actions[i - 1], b.systems[i]);
    }
  }

  lemma InitialInv(cs: seq<Config>, s: System)
    requires Initial(cs, s) && Inv(s.tables)
    ensures SystemInv(cs, s)
  {
    hide Inv;
  }

  lemma ReturnedStays(cs: seq<Config>, s: System, a: Action, u: System, w: nat)
    requires |cs| == |s.workers| && Step(cs, s, a, u) && w < |s.workers| && PcOf(s, w).Returned?
    ensures |u.workers| == |s.workers| && PcOf(u, w) == PcOf(s, w)
  {
    hide Apply, Allowed, CommandOf, OthersMay;
  }

  /** A result once returned is final. */
  lemma {:induction false} ReturnIsFinal(cs: seq<Config>, b: Behaviour, i: nat, j: nat, w: nat)
    requires IsBehaviour(cs, b) && i <= j < |b.systems| && w < |b.systems[i].workers| && PcOf(b.systems[i], w).Returned?
    ensures |b.systems[j].workers| == |b.systems[i].workers| && PcOf(b.systems[j], w) == PcOf(b.systems[i], w)
    decreases j
  {
    hide Step, Inv, Initial;
    if i < j {
      ReturnIsFinal(cs, b, i, j - 1, w);
      assert StepAt(cs, b, j - 1);
      ReturnedStays(cs, b.systems[j - 1], b.actions[j - 1], b.systems[j], w);
    }
  }

  /** Worker `w` has returned `result` for the operation. */
  predicate HasReturned(s: System, w: nat, result: RunResult, op: OperationId, epoch: nat) {
    w < |s.workers| && PcOf(s, w) == Returned(result, Some(Task(op, epoch)))
  }

  /** Every `runOnce` and the ledger agree, at the moment it returns and ever after, whatever
      the other workers do: "review_ready" means the record awaits review or is satisfied, and
      never that its outcome is uncertain; "uncertain" means it is never reviewed nor satisfied. */
  lemma WorkerAgreesWithLedger(cs: seq<Config>, b: Behaviour, i: nat, j: nat, w: nat, op: OperationId, epoch: nat)
    requires IsBehaviour(cs, b) && i <= j < |b.systems|
    ensures HasReturned(b.systems[i], w, ReviewReadyResult, op, epoch) ==> InState(b.systems[j].tables, op, {ReviewReady, Satisfied})
    ensures HasReturned(b.systems[i], w, UncertainResult, op, epoch) ==> InState(b.systems[j].tables, op, {Running, Uncertain})
    ensures w < |b.systems[i].workers| && PcOf(b.systems[i], w).Returned? && PcOf(b.systems[i], w).result != Idle ==>
              PcOf(b.systems[i], w).done.Some?
  {
    hide Step, Inv, LeasedTo, SentOk, IsBehaviour;
    if w < |b.systems[i].workers| && PcOf(b.systems[i], w).Returned? {
      ReturnIsFinal(cs, b, i, j, w);
      BehaviourKeepsInv(cs, b, i);
      BehaviourKeepsInv(cs, b, j);
      assert Knows(b.systems[j].tables, cs[w].workerId, PcOf(b.systems[j], w));
    }
  }

  /** No two workers ever hold, or have returned from, the same operation. */
  lemma WorkersApart(cs: seq<Config>, b: Behaviour, i: nat, w: nat, v: nat, op: OperationId)
    requires IsBehaviour(cs, b) && i < |b.systems| && w != v
    requires w < |b.systems[i].workers| && v < |b.systems[i].workers| && Holds(PcOf(b.systems[i], w), op)
    ensures !Holds(PcOf(b.systems[i], v), op)
  {
    hide Step, Inv, Knows, SentOk, IsBehaviour;
    BehaviourKeepsInv(cs, b, i);
    assert Apart(PcOf(b.systems[i], w), PcOf(b.systems[i], v));
  }

  /** After "uncertain", the next reconciliation past the lease deadline settles the record. */
  lemma UncertainRunSettles(cs: seq<Config>, b: Behaviour, i: nat, j: nat, w: nat, op: OperationId, epoch: nat)
    requires IsBehaviour(cs, b) && i <= j < |b.actions| && HasReturned(b.systems[i], w, UncertainResult, op, epoch)
    requires b.actions[j].Other? && b.actions[j].cmd.ReconcileExpired?
    requires op in b.systems[j].tables.records
    requires Expired(b.systems[j].tables.records[op], b.actions[j].now) || b.systems[j].tables.records[op].state != Running
    ensures InState(b.systems[j + 1].tables, op, {Uncertain})
  {
    hide Inv, SentOk, WorkersOk;
    WorkerAgreesWithLedger(cs, b, i, j, w, op, epoch);
    BehaviourKeepsInv(cs, b, j);
    assert StepAt(cs, b, j);
    var a := b.actions[j];
    ReconcileIsExact(b.systems[j].tables, a.now, a.choice);
  }
}
