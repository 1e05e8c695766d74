/** The ledger's promises, over every run: at-most-once execution, a complete event log,
    completion only with evidence, fenced leases, idempotent admission. */
module LedgerTheorems {
  import opened Basics
  import opened Ordering
  import opened Text
  import opened LedgerModel
  import opened LedgerRuns

  /** A transaction that throws leaves every table as it was. */
  lemma ErrorsRollBack(t: Tables, now: int, cmd: Command, choice: Choice)
    requires Allowed(t, now, cmd, choice) && Apply(t, now, cmd, choice).1.Err?
    ensures Apply(t, now, cmd, choice).0 == t
  {
    hide Blank, GoalKeyOf, DecisionOf, IsLatest, IsNext, IsExpiredList, ValidSubmissions, CertifiableFor, InsertReceipts, MarkVerified;
  }

  // ------------------------------------------------------------- event log

  /** An operation's events, folded in sequence order, give its row back. */
  lemma EventLogComplete(r: Run, i: nat, id: OperationId)
    requires IsRun(r) && i < |r.tables|
    ensures var t := r.tables[i];
            Replay(t.events, id) ==
            if id in t.records then
              Some(View(t.records[id].state, t.records[id].stage, t.records[id].leaseEpoch, t.records[id].workerId))
            else None
  {
    RunKeepsInv(r, i);
    assert LogOk(r.tables[i]);
  }

  // ----------------------------------------------------------- at most once

  /** The states a record can be in, and what its lease epoch says. */
  lemma RecordStates(r: Run, i: nat, id: OperationId)
    requires IsRun(r) && i < |r.tables| && id in r.tables[i].records
    ensures var row := r.tables[i].records[id];
            && row.state in {Queued, Running, ReviewReady, Uncertain, Satisfied}
            && row.leaseEpoch == (if row.state == Queued then 0 else 1)
            && ClaimCount(r.tables[i].events, id) == row.leaseEpoch
  {
    RunKeepsInv(r, i);
    assert RowOk(r.tables[i].records[id]);
  }

  /** Between any two moments of a run a record only moves forward along
      queued, running, then uncertain or review-ready then satisfied; the two ends absorb. */
  lemma RecordsMoveForward(r: Run, i: nat, j: nat, id: OperationId)
    requires IsRun(r) && i <= j < |r.tables| && id in r.tables[i].records
    ensures id in r.tables[j].records
    ensures var (a, b) := (r.tables[i].records[id], r.tables[j].records[id]);
            && CanBecome(a.state, b.state) && SameWork(a, b)
            && (b.state == Queued ==> a.state == Queued)
            && (a.state in {Uncertain, Satisfied} ==> b == a)
  {
    RunEvolves(r, i, j);
    assert RowEvolves(r.tables[i].records[id], r.tables[j].records[id]);
  }

  /** One step of a run moves a record along at most one edge; a new record is queued. */
  lemma StepsAreEdges(r: Run, i: nat, id: OperationId)
    requires IsRun(r) && i < |r.steps| && id in r.tables[i + 1].records
    ensures var u := r.tables[i + 1].records[id];
            if id in r.tables[i].records
            then u.state == r.tables[i].records[id].state || Edge(r.tables[i].records[id].state, u.state)
            else u.state == Queued
  {
    RunKeepsInv(r, i);
    assert Follows(r, i);
    ApplyKeeps(r.tables[i], r.steps[i].now, r.steps[i].cmd, r.steps[i].choice);
  }

  predicate Leases(o: Outcome, id: OperationId) {
    o.Ok? && o.value.Lease? && o.value.op == id
  }

  lemma LeaseMeansClaimed(t: Tables, now: int, cmd: Command, choice: Choice, id: OperationId)
    requires Allowed(t, now, cmd, choice) && Leases(Apply(t, now, cmd, choice).1, id)
    ensures id in t.records && t.records[id].state == Queued
    ensures var u := Apply(t, now, cmd, choice).0; id in u.records && u.records[id].state == Running
  {
    hide Blank, GoalKeyOf, DecisionOf, IsLatest, IsExpiredList, ValidSubmissions, CertifiableFor, InsertReceipts, MarkVerified;
  }

  lemma StepLeases(r: Run, k: nat, id: OperationId)
    requires IsRun(r) && k < |r.steps| && Leases(OutcomeOf(r, k), id)
    ensures id in r.tables[k].records && r.tables[k].records[id].state == Queued
    ensures id in r.tables[k + 1].records && r.tables[k + 1].records[id].state == Running
  {
    assert Follows(r, k);
    LeaseMeansClaimed(r.tables[k], r.steps[k].now, r.steps[k].cmd, r.steps[k].choice, id);
  }

  /** No operation is handed to a worker twice. */
  lemma LeasedAtMostOnce(r: Run, i: nat, j: nat, id: OperationId)
    requires IsRun(r) && i < |r.steps| && j < |r.steps|
    requires Leases(OutcomeOf(r, i), id) && Leases(OutcomeOf(r, j), id)
    ensures i == j
  {
    hide Apply, Follows, OutcomeOf, Leases, SameWork;
    StepLeases(r, i, id);
    StepLeases(r, j, id);
    if i < j {
      RecordsMoveForward(r, i + 1, j, id);
    } else if j < i {
      RecordsMoveForward(r, j + 1, i, id);
    }
  }

  // --------------------------------------------------------------- evidence

  /** A satisfied record has, for each acceptance criterion, a verified receipt that was
      filed under it; a verified receipt exists only on a satisfied record. */
  lemma CompletionNeedsEvidence(r: Run, i: nat, id: OperationId)
    requires IsRun(r) && i < |r.tables| && id in r.tables[i].records
    ensures r.tables[i].records[id].state == Satisfied ==>
              forall c :: c in r.tables[i].records[id].acceptance ==> HasProof(r.tables[i].receipts, id, c)
    ensures forall k :: k in r.tables[i].receipts && k.op == id ==> ReceiptBelongs(r.tables[i], k)
  {
    RunKeepsInv(r, i);
    forall k | k in r.tables[i].receipts && k.op == id ensures ReceiptBelongs(r.tables[i], k) {
      assert ReceiptOk(r.tables[i], k);
    }
  }

  /** A receipt is filed under a criterion of its operation, and counts as verified only
      when that operation is satisfied. */
  predicate ReceiptBelongs(t: Tables, k: ReceiptKey) {
    && k in t.receipts && k.op in t.records && k.criterion in t.records[k.op].acceptance
    && (t.receipts[k].verifiedAt.Some? ==> t.records[k.op].state == Satisfied)
  }

  /** `decision` says of every record what its state is: "satisfied" for the satisfied ones,
      "running" for those queued or running, "blocked" for the uncertain, "partial" for those that
      await review. */
  lemma DecisionIsExact(r: Run, i: nat, id: OperationId)
    requires IsRun(r) && i < |r.tables| && id in r.tables[i].records
    ensures var (said, state) := (DecisionOf(r.tables[i], id, false).state, r.tables[i].records[id].state);
            && (said == DSatisfied <==> state == Satisfied)
            && (said == DRunning <==> state == Queued || state == Running)
            && (said == DBlocked <==> state == Uncertain)
            && (said == DPartial <==> state == ReviewReady)
  {
    RunKeepsInv(r, i);
    var t := r.tables[i];
    assert RowOk(t.records[id]);
    if t.records[id].state == Satisfied {
      forall c | c in t.records[id].acceptance ensures Proven(c, EvidenceOf(t, id)) {
        assert HasProof(t.receipts, id, c);
        var uri :| ReceiptKey(id, c, uri) in t.receipts && t.receipts[ReceiptKey(id, c, uri)].verifiedAt.Some?;
        assert ReceiptKey(id, c, uri) in EvidenceOf(t, id);
      }
    }
  }

  /** Certification succeeds exactly when each criterion is given uris that were all filed
      for it; a failure midway leaves no receipt marked. */
  lemma CertifyOutcome(t: Tables, now: int, id: OperationId, verifier: string, evidence: map<string, seq<string>>)
    requires Inv(t)
    ensures var (u, o) := CertifyStep(t, now, id, verifier, evidence);
            && (o.Ok? <==> id in t.records && t.records[id].state == ReviewReady
                           && CertifiableFor(t.receipts, id, t.records[id].acceptance, evidence))
            && (o.Ok? ==> id in u.records && u.records[id].state == Satisfied
                          && o.value == Decided(Decision(DSatisfied, Some(id), EvidenceOf(u, id))))
            && (o.Err? ==> u == t)
  {
    var (u, o) := CertifyStep(t, now, id, verifier, evidence);
    if o.Ok? {
      CertifyKeeps(t, now, id, verifier, evidence);
      forall c | c in u.records[id].acceptance ensures Proven(c, EvidenceOf(u, id)) {
        assert HasProof(u.receipts, id, c);
        var uri :| ReceiptKey(id, c, uri) in u.receipts && u.receipts[ReceiptKey(id, c, uri)].verifiedAt.Some?;
        assert ReceiptKey(id, c, uri) in EvidenceOf(u, id);
      }
    }
  }

  // ----------------------------------------------------------------- fencing

  /** A command only the owner of a lease on `id` may give. */
  predicate WorkerCommand(cmd: Command, id: OperationId) {
    match cmd
    case Beat(op, _, _, _) => op == id
    case Advance(op, _, _, _, _) => op == id
    case SubmitReview(op, _, _, _) => op == id
    case MarkUncertain(op, _, _, _) => op == id
    case ReadyWithoutProof(op, _, _, _) => op == id
    case _ => false
  }

  lemma WorkerNeedsLease(t: Tables, now: int, cmd: Command, choice: Choice, id: OperationId)
    requires WorkerCommand(cmd, id) && Apply(t, now, cmd, choice).1.Ok?
    ensures id in t.records && t.records[id].state == Running && !Expired(t.records[id], now)
  {
    hide Blank, GoalKeyOf, DecisionOf, IsLatest, IsNext, IsExpiredList, ValidSubmissions, CertifiableFor, InsertReceipts, MarkVerified;
  }

  /** Whatever happens at `now`, an expired row stays as it is or is reconciled. */
  lemma ExpiredRowStep(t: Tables, now: int, cmd: Command, choice: Choice, id: OperationId)
    requires Inv(t) && Allowed(t, now, cmd, choice) && id in t.records && Expired(t.records[id], now)
    ensures var u := Apply(t, now, cmd, choice).0;
            id in u.records && u.records[id] == if cmd.ReconcileExpired? then ExpireRow(t.records[id], now) else t.records[id]
  {
    hide Inv, Blank, GoalKeyOf, DecisionOf, IsLatest, ValidSubmissions, CertifiableFor, InsertReceipts, MarkVerified;
    if cmd.ReconcileExpired? { ExpireAllRows(t, now, choice.order); }
  }

  /** The row of an operation whose lease has passed is untouched until `reconcileExpired`,
      and uncertain from then on. */
  ghost predicate Fenced(before: Row, row: Row) {
    row == before || row.state == Uncertain
  }

  lemma {:induction false} ExpiredRowOverRun(r: Run, i: nat, j: nat, id: OperationId)
    requires IsRun(r) && ClockOrdered(r) && i <= j < |r.tables| && i < |r.steps|
    requires id in r.tables[i].records && Expired(r.tables[i].records[id], r.steps[i].now)
    ensures id in r.tables[j].records && Fenced(r.tables[i].records[id], r.tables[j].records[id])
    decreases j
  {
    hide Apply, Allowed, Inv, SameWork;
    if i < j {
      ExpiredRowOverRun(r, i, j - 1, id);
      assert Follows(r, j - 1);
      var s := r.steps[j - 1];
      RunKeepsInv(r, j - 1);
      if r.tables[j - 1].records[id] == r.tables[i].records[id] {
        ExpiredRowStep(r.tables[j - 1], s.now, s.cmd, s.choice, id);
      } else {
        RecordsMoveForward(r, j - 1, j, id);
      }
    }
  }

  /** Once a lease deadline has passed, no worker step on the record succeeds again, and
      the record leaves `running` only by reconciliation, to uncertain. */
  lemma ExpiredLeaseIsFenced(r: Run, i: nat, j: nat, id: OperationId)
    requires IsRun(r) && ClockOrdered(r) && i <= j < |r.steps|
    requires id in r.tables[i].records && Expired(r.tables[i].records[id], r.steps[i].now)
    ensures WorkerCommand(r.steps[j].cmd, id) ==> OutcomeOf(r, j).Err?
    ensures id in r.tables[j].records && id in r.tables[j + 1].records
    ensures r.tables[j].records[id].state == Running && r.tables[j + 1].records[id].state != Running ==>
            r.steps[j].cmd.ReconcileExpired? && r.tables[j + 1].records[id].state == Uncertain
  {
    hide Apply, Allowed, Inv, SameWork;
    ExpiredRowOverRun(r, i, j, id);
    assert Follows(r, j);
    var s := r.steps[j];
    if WorkerCommand(s.cmd, id) && OutcomeOf(r, j).Ok? {
      WorkerNeedsLease(r.tables[j], s.now, s.cmd, s.choice, id);
    }
    RunKeepsInv(r, j);
    ExpiredRowOverRun(r, i, j + 1, id);
    if r.tables[j].records[id].state == Running {
      ExpiredRowStep(r.tables[j], s.now, s.cmd, s.choice, id);
    }
  }

  /** After reconciling at `now` no running record has a deadline at or before `now`;
      the expired ones are uncertain, and nothing else changed. */
  lemma ReconcileIsExact(t: Tables, now: int, choice: Choice)
    requires Inv(t) && Allowed(t, now, ReconcileExpired, choice)
    ensures var u := Apply(t, now, ReconcileExpired, choice).0; Reconciled(t, now, u)
    ensures Apply(t, now, ReconcileExpired, choice).1 ==
            Ok(Reply.Reconciled(|ExpiredIds(t, now)|))
  {
    ExpireAllRows(t, now, choice.order);
    assert RowsOk(t);
    CountDistinct(choice.order, ExpiredIds(t, now));
  }

  ghost predicate Reconciled(t: Tables, now: int, u: Tables) {
    && u.records.Keys == t.records.Keys
    && (forall id :: id in t.records ==>
         u.records[id] == if Expired(t.records[id], now) then ExpireRow(t.records[id], now) else t.records[id])
    && (forall id :: id in u.records && u.records[id].state == Running ==>
         u.records[id].leaseExpires.Some? && u.records[id].leaseExpires.value > now)
  }

  function ExpiredIds(t: Tables, now: int): set<OperationId> {
    set id | id in t.records && Expired(t.records[id], now)
  }

  lemma {:induction false} CountDistinct(s: seq<OperationId>, all: set<OperationId>)
    requires forall i, j :: 0 <= i < j < |s| ==> s[i] != s[j]
    requires forall x :: x in s <==> x in all
    ensures |all| == |s|
  {
    if s == [] {
      assert all == {};
    } else {
      var last, rest := s[|s| - 1], s[..|s| - 1];
      assert s == rest + [last];
      CountDistinct(rest, all - {last});
    }
  }

  // --------------------------------------------------------------- admission

  /** Goals are compared by principal, repository without case, the words of the task, and
      the normalized criteria without their order. */
  lemma GoalKeyMeaning(p: string, a: Intent, q: string, b: Intent)
    ensures GoalKeyOf(p, a) == GoalKeyOf(q, b) <==>
            && p == q
            && Lower(a.target.repository) == Lower(b.target.repository)
            && LoweredWords(a.mission.task) == LoweredWords(b.mission.task)
            && multiset(NormalizeAll(a.mission.acceptance)) == multiset(NormalizeAll(b.mission.acceptance))
  {
    NormalizeMeaning(a.mission.task, b.mission.task);
    SortEqual(NormalizeAll(a.mission.acceptance), NormalizeAll(b.mission.acceptance));
  }

  /** An idempotency key means one operation for the rest of the run. */
  lemma IngressIsPermanent(r: Run, i: nat, j: nat, key: IngressKey)
    requires IsRun(r) && i <= j < |r.tables| && key in r.tables[i].ingress
    ensures key in r.tables[j].ingress && r.tables[j].ingress[key] == r.tables[i].ingress[key]
    ensures r.tables[j].ingress[key].op in r.tables[j].records
  {
    RunEvolves(r, i, j);
    RunKeepsInv(r, j);
  }

  /** The operation an answer names. */
  function Named(o: Outcome): Option<OperationId> {
    if o.Ok? && o.value.Decided? then o.value.decision.op else None
  }

  /** Two requests under one ingress key. */
  predicate SameKey(a: Command, b: Command) {
    && a.Admit? && b.Admit? && a.principal == b.principal
    && a.input.source == b.input.source && a.input.requestId == b.input.requestId
  }

  predicate SamePayload(a: Command, b: Command)
    requires SameKey(a, b)
  {
    DigestOf(a.mode, a.input) == DigestOf(b.mode, b.input)
  }

  /** A repeated request adds nothing: the same payload is answered with the operation of
      the first one, a different payload under the same key is refused. */
  lemma ReplayedAdmission(r: Run, i: nat, j: nat)
    requires IsRun(r) && i < j < |r.steps| && SameKey(r.steps[i].cmd, r.steps[j].cmd) && OutcomeOf(r, i).Ok?
    ensures r.tables[j + 1] == r.tables[j] && Named(OutcomeOf(r, i)).Some?
    ensures SamePayload(r.steps[i].cmd, r.steps[j].cmd) ==>
              OutcomeOf(r, j).Ok? && Named(OutcomeOf(r, j)) == Named(OutcomeOf(r, i))
    ensures !SamePayload(r.steps[i].cmd, r.steps[j].cmd) ==> OutcomeOf(r, j) == Err(ConflictingPayload)
  {
    hide Inv, Apply, Allowed, GoalKeyOf, DecisionOf;
    var c := r.steps[i].cmd;
    var key := IngressKey(c.principal, c.input.source, c.input.requestId);
    assert Follows(r, i) && Follows(r, j);
    RunKeepsInv(r, i);
    AdmissionRecords(r.tables[i], r.steps[i].now, c, r.steps[i].choice);
    IngressIsPermanent(r, i + 1, j, key);
    RunKeepsInv(r, j);
    RepeatedKey(r.tables[j], r.steps[j].now, r.steps[j].cmd, r.steps[j].choice);
  }

  /** What a request gets whose key is known. */
  lemma RepeatedKey(t: Tables, now: int, c: Command, choice: Choice)
    requires Inv(t) && c.Admit? && Allowed(t, now, c, choice) && IngressKey(c.principal, c.input.source, c.input.requestId) in t.ingress
    ensures var (u, o) := Apply(t, now, c, choice);
            var prior := t.ingress[IngressKey(c.principal, c.input.source, c.input.requestId)];
            && u == t
            && (prior.digest == DigestOf(c.mode, c.input) ==> o.Ok? && Named(o) == Some(prior.op))
            && (prior.digest != DigestOf(c.mode, c.input) ==> o == Err(ConflictingPayload))
  {
    hide LogOk, ReceiptsOk, CompletionOk, GoalsOk, RowsOk, GoalKeyOf, IsLatest;
  }

  /** The request adds one record, queued, with the work that it asks for. */
  predicate Creates(t: Tables, u: Tables, c: Command)
    requires c.Admit?
  {
    && c.freshId !in t.records && c.freshId in u.records && u.records == t.records[c.freshId := u.records[c.freshId]]
    && IngressKey(c.principal, c.input.source, c.input.requestId) in u.ingress
    && u.ingress[IngressKey(c.principal, c.input.source, c.input.requestId)].op == c.freshId
    && var row := u.records[c.freshId];
    && row.state == Queued && row.principal == c.principal && row.mode == c.mode && row.purpose == c.input.purpose
    && row.task == c.input.mission.task && row.acceptance == c.input.mission.acceptance
    && row.repository == c.input.target.repository && row.source == c.input.source
  }

  /** A successful admission leaves its key in the ingress table, bound to the operation it
      names, under the digest of this payload; that operation has this goal, and is the
      one on record, unless there was none or the repetition is deliberate: then it is new,
      queued, with the work of the request. */
  lemma AdmissionRecords(t: Tables, now: int, c: Command, choice: Choice)
    requires Inv(t) && c.Admit? && Allowed(t, now, c, choice) && Apply(t, now, c, choice).1.Ok?
    ensures var (u, o) := Apply(t, now, c, choice);
            var key := IngressKey(c.principal, c.input.source, c.input.requestId);
            && key in u.ingress && u.ingress[key].digest == DigestOf(c.mode, c.input)
            && o.value.Decided? && o.value.decision.op == Some(u.ingress[key].op)
            && u.ingress[key].op in u.records
            && (key !in t.ingress ==> u.records[u.ingress[key].op].goal == GoalKeyOf(c.principal, c.input))
            && (key in t.ingress || (choice.pick.Some? && !Deliberate(c.input.purpose)) ==> u.records == t.records)
            && (key !in t.ingress && (choice.pick.None? || Deliberate(c.input.purpose)) ==> Creates(t, u, c))
  {
    hide Inv, GoalKeyOf, DecisionOf, IsLatest;
    AdmissionRecordsStep(t, now, c.principal, c.mode, c.input, GoalKeyOf(c.principal, c.input), c.freshId, choice.pick);
  }

  lemma AdmissionRecordsStep(t: Tables, now: int, principal: string, mode: Mode, input: Intent, goal: GoalKey,
                             freshId: OperationId, same: Option<OperationId>)
    requires Inv(t) && IsLatest(t, principal, goal, same)
    requires AdmitStep(t, now, principal, mode, input, goal, freshId, same).1.Ok?
    ensures var (u, o) := AdmitStep(t, now, principal, mode, input, goal, freshId, same);
            var key := IngressKey(principal, input.source, input.requestId);
            && key in u.ingress && u.ingress[key].digest == DigestOf(mode, input)
            && o.value.Decided? && o.value.decision.op == Some(u.ingress[key].op)
            && u.ingress[key].op in u.records
            && (key !in t.ingress ==> u.records[u.ingress[key].op].goal == goal)
            && (key in t.ingress || (same.Some? && !Deliberate(input.purpose)) ==> u.records == t.records)
            && (key !in t.ingress && (same.None? || Deliberate(input.purpose)) ==> Creates(t, u, Command.Admit(principal, mode, input, freshId)))
  {
    hide LogOk, ReceiptsOk, CompletionOk, GoalsOk, RowsOk;
  }

  /** A goal that is already on record is joined, not executed again, unless the request
      repeats it deliberately: at any time one goal has at most one such record. */
  lemma OneExecutionPerGoal(r: Run, i: nat, a: OperationId, b: OperationId)
    requires IsRun(r) && i < |r.tables| && a in r.tables[i].records && b in r.tables[i].records
    requires r.tables[i].records[a].goal == r.tables[i].records[b].goal
    requires r.tables[i].records[a].principal == r.tables[i].records[b].principal
    requires r.tables[i].records[a].purpose == Execute && r.tables[i].records[b].purpose == Execute
    ensures a == b
  {
    RunKeepsInv(r, i);
    assert SameGoal(r.tables[i].records[a], r.tables[i].records[b]);
  }
}
