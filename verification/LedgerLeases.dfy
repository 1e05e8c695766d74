/** What a lease is worth: for which work it is given, and exactly which calls it admits, over every
    run of the ledger (extensions/ompk-delegations/ledger.ts:186-290). */
module LedgerLeases {
  import opened Basics
  import opened Text
  import opened LedgerModel
  import opened LedgerRuns
  import opened LedgerTheorems

  // ----------------------------------------------------------- calls of a worker

  ghost predicate ReasonGiven(s: string) {
    !AllSpace(s) && |s| <= 2000
  }

  /** The arguments a call needs besides the lease. */
  ghost predicate Proper(cmd: Command, acceptance: seq<string>) {
    match cmd
    case Advance(_, _, _, stage, message) => ValidStage(stage) && ReasonGiven(message)
    case SubmitReview(_, _, _, submissions) =>
      submissions != [] && forall i :: 0 <= i < |submissions| ==>
        && submissions[i].criterion in acceptance && !AllSpace(submissions[i].sourceId)
        && ("https://" <= submissions[i].uri || "file://" <= submissions[i].uri)
    case MarkUncertain(_, _, _, message) => ReasonGiven(message)
    case ReadyWithoutProof(_, _, _, summary) => ReasonGiven(summary)
    case _ => true
  }

  lemma ReasonIsValid(s: string)
    ensures ValidReason(s) <==> ReasonGiven(s)
  {
    TrimEmpty(s);
  }

  lemma SubmissionsAreProper(row: Row, s: seq<Submission>, cmd: Command)
    requires cmd.SubmitReview? && cmd.submissions == s
    ensures ValidSubmissions(row, s) <==> Proper(cmd, row.acceptance)
  {
    hide Blank, Trim;
    forall i | 0 <= i < |s| ensures Blank(s[i].sourceId) <==> AllSpace(s[i].sourceId) {
      BlankIsSpace(s[i].sourceId);
    }
    if ValidSubmissions(row, s) {
      assert forall i :: 0 <= i < |s| ==> ValidSubmission(row, s[i]);
    }
  }

  lemma BlankIsSpace(s: string)
    ensures Blank(s) <==> AllSpace(s)
  {
    TrimEmpty(s);
  }

  /** A worker's call succeeds exactly when its arguments are proper and it owns the lease. */
  lemma AcceptedExactly(t: Tables, now: int, cmd: Command, choice: Choice, id: OperationId)
    requires Allowed(t, now, cmd, choice) && WorkerCommand(cmd, id)
    ensures Apply(t, now, cmd, choice).1.Ok? <==>
      Owns(t, now, id, cmd.worker, cmd.epoch) && Proper(cmd, t.records[id].acceptance)
  {
    hide ValidSubmissions, ValidReason, ReasonGiven, InsertReceipts;
    match cmd
    case Beat(_, _, _, _) =>
    case Advance(_, _, _, _, message) => ReasonIsValid(message);
    case SubmitReview(_, _, _, s) => if Owns(t, now, id, cmd.worker, cmd.epoch) { SubmissionsAreProper(t.records[id], s, cmd); }
    case MarkUncertain(_, _, _, message) => ReasonIsValid(message);
    case ReadyWithoutProof(_, _, _, summary) => ReasonIsValid(summary);
  }

  // ------------------------------------------------------------- one lease

  /** The row of an operation under the lease of `worker` that ends at `deadline`. */
  predicate Under(row: Row, worker: string, epoch: nat, deadline: int, acceptance: seq<string>) {
    && row.state == Running && row.workerId == Some(worker) && row.leaseEpoch == epoch
    && row.leaseExpires == Some(deadline) && row.acceptance == acceptance
  }

  /** The step ends the lease on `id`: its owner hands the work in or reports it uncertain, or it is
      reconciled when its time is up. */
  ghost predicate Ends(now: int, cmd: Command, o: Outcome, id: OperationId, deadline: int) {
    || (cmd.SubmitReview? && cmd.op == id && o.Ok?)
    || (cmd.MarkUncertain? && cmd.op == id && o.Ok?)
    || (cmd.ReadyWithoutProof? && cmd.op == id && o.Ok?)
    || (cmd.ReconcileExpired? && deadline <= now)
  }

  predicate Renews(cmd: Command, o: Outcome, id: OperationId) {
    cmd.Beat? && cmd.op == id && o.Ok?
  }

  /** What a step does to a row under a lease. */
  lemma LeasedRowStep(t: Tables, now: int, cmd: Command, choice: Choice, id: OperationId, worker: string, epoch: nat, deadline: int, acceptance: seq<string>)
    requires Allowed(t, now, cmd, choice) && id in t.records && Under(t.records[id], worker, epoch, deadline, acceptance)
    ensures var (u, o) := Apply(t, now, cmd, choice);
      && id in u.records
      && if Ends(now, cmd, o, id, deadline) then u.records[id].state in {ReviewReady, Uncertain}
         else Under(u.records[id], worker, epoch, if Renews(cmd, o, id) then now + cmd.leaseMs else deadline, acceptance)
  {
    hide Inv, Blank, GoalKeyOf, DecisionOf, IsLatest, ValidSubmissions, CertifiableFor, InsertReceipts, MarkVerified;
    if cmd.ReconcileExpired? { ExpireAllRows(t, now, choice.order); }
  }

  /** What is handed out with a lease. */
  lemma LeaseIsGiven(t: Tables, now: int, cmd: Command, choice: Choice, id: OperationId)
    requires Allowed(t, now, cmd, choice) && Leases(Apply(t, now, cmd, choice).1, id)
    ensures cmd.Claim? && 1000 <= cmd.leaseMs <= 300000 && id in t.records
    ensures var (u, lease) := (Apply(t, now, cmd, choice).0, Apply(t, now, cmd, choice).1.value);
      && id in u.records && Under(u.records[id], cmd.worker, lease.epoch, now + cmd.leaseMs, lease.acceptance)
      && lease.epoch == t.records[id].leaseEpoch + 1 && t.records[id].state == Queued
      && lease == Lease(id, lease.epoch, t.records[id].task, t.records[id].repository, t.records[id].acceptance, t.records[id].mode)
  {
    hide Blank, GoalKeyOf, DecisionOf, IsLatest, IsExpiredList, ValidSubmissions, CertifiableFor, InsertReceipts, MarkVerified;
  }

  // ------------------------------------------------------------------ over runs

  /** Step `k` of a run renews the lease on `id`. */
  ghost predicate RenewsAt(r: Run, k: nat, id: OperationId)
    requires IsRun(r) && k < |r.steps|
  {
    Renews(r.steps[k].cmd, OutcomeOf(r, k), id)
  }

  /** When the lease given on `id` at step `i` runs out, seen from before step `j`: `leaseMs` after
      the claim, or after the last successful heartbeat. */
  ghost function Deadline(r: Run, i: nat, j: nat, id: OperationId): int
    requires IsRun(r) && i < j <= |r.steps| && r.steps[i].cmd.Claim?
    decreases j
  {
    if j == i + 1 then r.steps[i].now + r.steps[i].cmd.leaseMs
    else if RenewsAt(r, j - 1, id) then r.steps[j - 1].now + r.steps[j - 1].cmd.leaseMs
    else Deadline(r, i, j - 1, id)
  }

  ghost predicate EndsAt(r: Run, i: nat, k: nat, id: OperationId)
    requires IsRun(r) && i < k < |r.steps| && r.steps[i].cmd.Claim?
  {
    Ends(r.steps[k].now, r.steps[k].cmd, OutcomeOf(r, k), id, Deadline(r, i, k, id))
  }

  /** No step between the claim and step `j` ended the lease. */
  ghost predicate StillHeld(r: Run, i: nat, j: nat, id: OperationId)
    requires IsRun(r) && i < j <= |r.steps| && r.steps[i].cmd.Claim?
  {
    forall k :: i < k < j ==> !EndsAt(r, i, k, id)
  }

  lemma ClaimGives(r: Run, i: nat, id: OperationId)
    requires IsRun(r) && i < |r.steps| && Leases(OutcomeOf(r, i), id)
    ensures r.steps[i].cmd.Claim? && 1000 <= r.steps[i].cmd.leaseMs <= 300000
    ensures var (s, lease) := (r.steps[i], OutcomeOf(r, i).value);
      && id in r.tables[i].records && id in r.tables[i + 1].records
      && Under(r.tables[i + 1].records[id], s.cmd.worker, lease.epoch, s.now + s.cmd.leaseMs, lease.acceptance)
      && var row := r.tables[i].records[id];
         lease == Lease(id, row.leaseEpoch + 1, row.task, row.repository, row.acceptance, row.mode)
  {
    hide Apply, Allowed, Under;
    assert Follows(r, i);
    LeaseIsGiven(r.tables[i], r.steps[i].now, r.steps[i].cmd, r.steps[i].choice, id);
  }

  /** The row of the operation at a later moment: under the lease with this deadline, or past it. */
  ghost predicate RowLater(r: Run, i: nat, j: nat, id: OperationId)
    requires IsRun(r) && i < j <= |r.steps| && r.steps[i].cmd.Claim? && Leases(OutcomeOf(r, i), id)
  {
    && id in r.tables[j].records
    && var (row, lease) := (r.tables[j].records[id], OutcomeOf(r, i).value);
       if StillHeld(r, i, j, id) then Under(row, r.steps[i].cmd.worker, lease.epoch, Deadline(r, i, j, id), lease.acceptance)
       else row.state in {ReviewReady, Uncertain, Satisfied}
  }

  lemma {:induction false} LeasedRow(r: Run, i: nat, j: nat, id: OperationId)
    requires IsRun(r) && i < j <= |r.steps| && Leases(OutcomeOf(r, i), id)
    ensures r.steps[i].cmd.Claim? && RowLater(r, i, j, id)
    decreases j
  {
    hide Apply, Allowed, Under, Inv, Ends, Renews, OutcomeOf, Leases;
    ClaimGives(r, i, id);
    if j > i + 1 {
      LeasedRow(r, i, j - 1, id);
      if StillHeld(r, i, j - 1, id) {
        StepUnderLease(r, i, j - 1, id);
      } else {
        RecordsMoveForward(r, j - 1, j, id);
        assert !StillHeld(r, i, j, id);
      }
    }
  }

  /** One step of a run on an operation that is still leased. */
  lemma StepUnderLease(r: Run, i: nat, j: nat, id: OperationId)
    requires IsRun(r) && i < j < |r.steps| && r.steps[i].cmd.Claim? && Leases(OutcomeOf(r, i), id)
    requires StillHeld(r, i, j, id) && RowLater(r, i, j, id)
    ensures RowLater(r, i, j + 1, id)
  {
    hide Apply, Allowed, Under, Inv, Ends, Renews;
    assert Follows(r, j);
    var (s, lease) := (r.steps[j], OutcomeOf(r, i).value);
    LeasedRowStep(r.tables[j], s.now, s.cmd, s.choice, id, r.steps[i].cmd.worker, lease.epoch, Deadline(r, i, j, id), lease.acceptance);
    assert StillHeld(r, i, j + 1, id) <==> !EndsAt(r, i, j, id);
  }

  /** Step `k` admits the operation `id` as new work. */
  ghost predicate AdmitsAt(r: Run, k: nat, id: OperationId)
    requires IsRun(r) && k < |r.steps|
  {
    && r.steps[k].cmd.Admit? && OutcomeOf(r, k).Ok? && id !in r.tables[k].records
    && OutcomeOf(r, k).value.Decided? && OutcomeOf(r, k).value.decision.op == Some(id)
  }

  /** The work of a row is that of the request that admitted it. */
  predicate WorkOf(row: Row, c: Command) {
    && c.Admit? && row.principal == c.principal && row.mode == c.mode && row.task == c.input.mission.task
    && row.repository == c.input.target.repository && row.acceptance == c.input.mission.acceptance
  }

  lemma NewRow(t: Tables, now: int, cmd: Command, choice: Choice, id: OperationId)
    requires Allowed(t, now, cmd, choice) && id !in t.records && id in Apply(t, now, cmd, choice).0.records
    ensures var (u, o) := Apply(t, now, cmd, choice);
      cmd.Admit? && o.Ok? && o.value.Decided? && o.value.decision.op == Some(id) && WorkOf(u.records[id], cmd)
  {
    hide Inv, Blank, GoalKeyOf, IsLatest, ValidSubmissions, CertifiableFor, InsertReceipts, MarkVerified;
    if cmd.ReconcileExpired? { ExpireAllRows(t, now, choice.order); }
  }

  lemma {:induction false} RowWasAdmitted(r: Run, j: nat, id: OperationId)
    requires IsRun(r) && j < |r.tables| && id in r.tables[j].records
    ensures exists k :: 0 <= k < j && AdmitsAt(r, k, id) && WorkOf(r.tables[j].records[id], r.steps[k].cmd)
  {
    hide Apply, Allowed, Inv;
    if j > 0 {
      assert Follows(r, j - 1);
      if id in r.tables[j - 1].records {
        RowWasAdmitted(r, j - 1, id);
        RecordsMoveForward(r, j - 1, j, id);
        var k :| 0 <= k < j - 1 && AdmitsAt(r, k, id) && WorkOf(r.tables[j - 1].records[id], r.steps[k].cmd);
        assert AdmitsAt(r, k, id) && WorkOf(r.tables[j].records[id], r.steps[k].cmd);
      } else {
        var s := r.steps[j - 1];
        NewRow(r.tables[j - 1], s.now, s.cmd, s.choice, id);
        assert AdmitsAt(r, j - 1, id);
      }
    }
  }

  /** The lease names the work that was admitted: its operation was admitted by an earlier request,
      and task, repository, acceptance criteria and mode are that request's. */
  ghost predicate NamesItsWork(r: Run, i: nat, id: OperationId)
    requires IsRun(r) && i < |r.steps| && Leases(OutcomeOf(r, i), id)
  {
    var lease := OutcomeOf(r, i).value;
    exists k :: 0 <= k < i && AdmitsAt(r, k, id) && LeaseFor(lease, r.steps[k].cmd)
  }

  predicate LeaseFor(lease: Reply, c: Command) {
    && c.Admit? && lease.Lease?
    && lease.task == c.input.mission.task && lease.repository == c.input.target.repository
    && lease.acceptance == c.input.mission.acceptance && lease.mode == c.mode
  }

  /** A lease is for work that was admitted as it says, and admits exactly the proper calls of its
      owner under its epoch, from the claim on, until it is over: at `now` before its deadline, as
      long as no step has ended it. */
  lemma LeaseAdmitsItsOwner(r: Run, i: nat, j: nat, id: OperationId)
    requires IsRun(r) && i < j < |r.steps| && Leases(OutcomeOf(r, i), id) && WorkerCommand(r.steps[j].cmd, id)
    ensures NamesItsWork(r, i, id) && r.steps[i].cmd.Claim? && r.steps[i].cmd.mode == OutcomeOf(r, i).value.mode
    ensures var (s, lease) := (r.steps[j], OutcomeOf(r, i).value);
      OutcomeOf(r, j).Ok? <==>
        && s.cmd.worker == r.steps[i].cmd.worker && s.cmd.epoch == lease.epoch && Proper(s.cmd, lease.acceptance)
        && StillHeld(r, i, j, id) && s.now < Deadline(r, i, j, id)
  {
    hide Apply, Allowed, Inv, Proper, Deadline, StillHeld, NamesItsWork;
    LeaseNamesItsWork(r, i, id);
    LeasedRow(r, i, j, id);
    assert Follows(r, j);
    var s := r.steps[j];
    AcceptedExactly(r.tables[j], s.now, s.cmd, s.choice, id);
    ClaimedMode(r, i, id);
  }

  lemma ClaimedMode(r: Run, i: nat, id: OperationId)
    requires IsRun(r) && i < |r.steps| && Leases(OutcomeOf(r, i), id)
    ensures r.steps[i].cmd.Claim? && r.steps[i].cmd.mode == OutcomeOf(r, i).value.mode
  {
    hide IsNext, Inv, Blank, GoalKeyOf, DecisionOf, IsLatest, IsExpiredList, ValidSubmissions, CertifiableFor, InsertReceipts, MarkVerified;
    assert Follows(r, i);
  }

  lemma LeaseNamesItsWork(r: Run, i: nat, id: OperationId)
    requires IsRun(r) && i < |r.steps| && Leases(OutcomeOf(r, i), id)
    ensures NamesItsWork(r, i, id)
  {
    hide Apply, Allowed, Inv, AdmitsAt, Under;
    ClaimGives(r, i, id);
    RowWasAdmitted(r, i, id);
    var k :| 0 <= k < i && AdmitsAt(r, k, id) && WorkOf(r.tables[i].records[id], r.steps[k].cmd);
    assert LeaseFor(OutcomeOf(r, i).value, r.steps[k].cmd);
  }

  /** Step `k` leaves the row of the operation as it is. */
  ghost predicate Untouched(r: Run, k: nat, id: OperationId)
    requires IsRun(r) && k < |r.steps|
  {
    id in r.tables[k].records && id in r.tables[k + 1].records && r.tables[k + 1].records[id] == r.tables[k].records[id]
  }

  /** Step `j` is a call of the worker that the lease was given to, or that renewed it, at step `i`. */
  ghost predicate OwnCall(r: Run, i: nat, j: nat, id: OperationId)
    requires IsRun(r) && i < j < |r.steps| && (Leases(OutcomeOf(r, i), id) || RenewsAt(r, i, id))
  {
    var (c, d) := (r.steps[i].cmd, r.steps[j].cmd);
    && WorkerCommand(d, id) && (c.Claim? || c.Beat?) && d.worker == c.worker
    && d.epoch == (if c.Beat? then c.epoch else OutcomeOf(r, i).value.epoch)
  }

  lemma BeatGives(t: Tables, now: int, cmd: Command, choice: Choice, id: OperationId)
    requires Allowed(t, now, cmd, choice) && Renews(cmd, Apply(t, now, cmd, choice).1, id)
    ensures var u := Apply(t, now, cmd, choice).0;
      id in u.records && u.records[id].leaseEpoch == cmd.epoch && Under(u.records[id], cmd.worker, cmd.epoch, now + cmd.leaseMs, u.records[id].acceptance)
  {}

  /** Until the row is written again, a lease lasts `leaseMs` from the claim or the heartbeat. */
  lemma LeaseLasts(r: Run, i: nat, j: nat, id: OperationId)
    requires IsRun(r) && i < j < |r.steps| && (Leases(OutcomeOf(r, i), id) || RenewsAt(r, i, id)) && OwnCall(r, i, j, id)
    requires forall k :: i < k < j ==> Untouched(r, k, id)
    requires id in r.tables[j].records && Proper(r.steps[j].cmd, r.tables[j].records[id].acceptance)
    ensures OutcomeOf(r, j).Ok? <==> r.steps[j].now < r.steps[i].now + r.steps[i].cmd.leaseMs
  {
    hide Apply, Allowed, Inv, Proper, WorkerCommand, Leases, Untouched;
    assert Follows(r, i);
    if Leases(OutcomeOf(r, i), id) {
      ClaimGives(r, i, id);
    } else {
      BeatGives(r.tables[i], r.steps[i].now, r.steps[i].cmd, r.steps[i].choice, id);
    }
    RowStands(r, i, j, id);
    Accepted(r, j, id);
  }

  lemma {:induction false} RowStands(r: Run, i: nat, j: nat, id: OperationId)
    requires IsRun(r) && i < j <= |r.steps| && id in r.tables[i + 1].records
    requires forall k :: i < k < j ==> Untouched(r, k, id)
    ensures id in r.tables[j].records && r.tables[j].records[id] == r.tables[i + 1].records[id]
    decreases j
  {
    hide Follows;
    if j > i + 1 {
      RowStands(r, i, j - 1, id);
      assert Untouched(r, j - 1, id);
    }
  }

  lemma Accepted(r: Run, j: nat, id: OperationId)
    requires IsRun(r) && j < |r.steps| && WorkerCommand(r.steps[j].cmd, id) && id in r.tables[j].records
    ensures OutcomeOf(r, j).Ok? <==>
      Owns(r.tables[j], r.steps[j].now, id, r.steps[j].cmd.worker, r.steps[j].cmd.epoch) && Proper(r.steps[j].cmd, r.tables[j].records[id].acceptance)
  {
    hide Apply, Allowed, Inv, Proper;
    assert Follows(r, j);
    AcceptedExactly(r.tables[j], r.steps[j].now, r.steps[j].cmd, r.steps[j].choice, id);
  }
}
