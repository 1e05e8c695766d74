/** The ledger object: its fields are the tables, updated in place, and each public
    method is one transaction (extensions/ompk-delegations/ledger.ts:67-315). */
module WorkLedgers {
  import opened Basics
  import opened LedgerModel

  class WorkLedger {
    var records: map<OperationId, Row>
    var ingress: map<IngressKey, IngressRow>
    var events: seq<Event>
    var receipts: map<ReceiptKey, Receipt>

    function Snapshot(): Tables
      reads this
    {
      Tables(records, ingress, events, receipts)
    }

    constructor ()
      ensures Snapshot() == EmptyTables
    {
      records, ingress, events, receipts := map[], map[], [], map[];
    }

    method Append(id: OperationId, actor: string, kind: Kind, now: int)
      modifies this`events
      ensures Snapshot() == Log(old(Snapshot()), id, actor, kind, now)
    {
      events := events + [Event(id, actor, kind, now)];
    }

    /** Undo everything the current transaction wrote. */
    method Rollback(saved: Tables)
      modifies this
      ensures Snapshot() == saved
    {
      records, ingress, events, receipts := saved.records, saved.ingress, saved.events, saved.receipts;
    }

    // -------------------------------------------------------------- queries

    method FindLatest(principal: string, goal: GoalKey) returns (pick: Option<OperationId>)
      ensures IsLatest(Snapshot(), principal, goal, pick)
    {
      pick := None;
      var todo := records.Keys;
      while todo != {}
        invariant todo <= records.Keys
        invariant pick.None? ==> forall id :: id in records.Keys - todo ==> !Matches(records[id], principal, goal)
        invariant pick.Some? ==> pick.value in records.Keys - todo && Matches(records[pick.value], principal, goal)
        invariant pick.Some? ==> forall o :: o in records.Keys - todo && Matches(records[o], principal, goal) ==>
                    records[o].createdAt <= records[pick.value].createdAt
        decreases |todo|
      {
        var id :| id in todo;
        todo := todo - {id};
        if Matches(records[id], principal, goal) {
          if pick.None? || records[pick.value].createdAt < records[id].createdAt { pick := Some(id); }
        }
      }
    }

    method FindNext(mode: Mode) returns (pick: Option<OperationId>)
      ensures IsNext(Snapshot(), mode, pick)
    {
      pick := None;
      var todo := records.Keys;
      while todo != {}
        invariant todo <= records.Keys
        invariant pick.None? ==> forall id :: id in records.Keys - todo ==> !Claimable(records[id], mode)
        invariant pick.Some? ==> pick.value in records.Keys - todo && Claimable(records[pick.value], mode)
        invariant pick.Some? ==> forall o :: o in records.Keys - todo && Claimable(records[o], mode) ==>
                    records[pick.value].createdAt < records[o].createdAt ||
                    (records[pick.value].createdAt == records[o].createdAt && pick.value <= o)
        decreases |todo|
      {
        var id :| id in todo;
        todo := todo - {id};
        if Claimable(records[id], mode) {
          if pick.None? || records[id].createdAt < records[pick.value].createdAt
             || (records[id].createdAt == records[pick.value].createdAt && id < pick.value) {
            pick := Some(id);
          }
        }
      }
    }

    method SelectExpired(now: int) returns (order: seq<OperationId>)
      ensures IsExpiredList(Snapshot(), now, order)
    {
      order := [];
      var todo := records.Keys;
      while todo != {}
        invariant todo <= records.Keys
        invariant forall id :: id in order <==> id in records.Keys - todo && Expired(records[id], now)
        invariant forall i, j :: 0 <= i < j < |order| ==> order[i] != order[j]
        decreases |todo|
      {
        var id :| id in todo;
        todo := todo - {id};
        if Expired(records[id], now) { order := order + [id]; }
      }
    }

    /** `get`: the principal's own record, or "Not found". */
    method Get(principal: string, id: OperationId) returns (r: Result<Decision, LedgerError>)
      ensures r.Ok? <==> id in records && records[id].principal == principal
      ensures r.Ok? ==> r.value == DecisionOf(Snapshot(), id, false)
      ensures r.Err? ==> r.error == NotFound
    {
      if id !in records || records[id].principal != principal { return Err(NotFound); }
      r := Ok(DecisionOf(Snapshot(), id, false));
    }

    /** `inspect`: by operation id if the request names one, otherwise by goal. */
    method Inspect(principal: string, input: Intent) returns (r: Result<Decision, LedgerError>)
      ensures match input.target.operationId
              case Some(id) => (r.Ok? <==> id in records && records[id].principal == principal) &&
                               (r.Ok? ==> r.value == DecisionOf(Snapshot(), id, false))
              case None => r.Ok? && StatusOfGoal(Snapshot(), principal, GoalKeyOf(principal, input), r.value)
    {
      if input.target.operationId.Some? {
        r := Get(principal, input.target.operationId.value);
        return;
      }
      var pick := FindLatest(principal, GoalKeyOf(principal, input));
      r := Ok(if pick.Some? then DecisionOf(Snapshot(), pick.value, false) else Decision(DUnknown, None, {}));
    }

    // --------------------------------------------------------- transactions

    method Admit(now: int, principal: string, mode: Mode, input: Intent, freshId: OperationId) returns (r: Outcome)
      modifies this
      ensures Transaction(old(Snapshot()), now, Command.Admit(principal, mode, input, freshId), Snapshot(), r)
    {
      ghost var before := Snapshot();
      var key := IngressKey(principal, input.source, input.requestId);
      var digest := DigestOf(mode, input);
      var goal := GoalKeyOf(principal, input);
      var same := FindLatest(principal, goal);
      if key in ingress {
        var prior := ingress[key];
        if prior.digest != digest {
          r := Err(ConflictingPayload);
        } else if prior.op !in records {
          r := Err(MissingRecord);
        } else {
          r := Ok(Decided(DecisionOf(Snapshot(), prior.op, false)));
        }
      } else if same.Some? && !Deliberate(input.purpose) {
        r := Ok(Decided(DecisionOf(Snapshot(), same.value, false)));
        ingress := ingress[key := IngressRow(digest, same.value)];
        Append(same.value, principal, JoinedExisting(input.source, input.requestId), now);
      } else if freshId in records {
        r := Err(DuplicateId);
      } else {
        r := Insert(now, principal, mode, input, goal, freshId, same);
      }
      assert AdmitStep(before, now, principal, mode, input, goal, freshId, same) == (Snapshot(), r);
      CommitAdmit(before, now, principal, mode, input, freshId, same, Snapshot(), r);
    }

    method Insert(now: int, principal: string, mode: Mode, input: Intent, goal: GoalKey,
                  freshId: OperationId, same: Option<OperationId>) returns (r: Outcome)
      modifies this
      ensures (Snapshot(), r) == InsertStep(old(Snapshot()), now, principal, mode, input, goal, freshId, same)
    {
      records := records[freshId := Row(principal, goal, input.target.repository, input.mission.task, input.mission.acceptance,
                                        input.purpose, mode, input.source, now, Queued, "planned", now, 0, None, None)];
      ingress := ingress[IngressKey(principal, input.source, input.requestId) := IngressRow(DigestOf(mode, input), freshId)];
      Append(freshId, principal, Admitted(input.source, input.purpose, same), now);
      r := Ok(Decided(DecisionOf(Snapshot(), freshId, true)));
    }

    method Claim(now: int, worker: string, leaseMs: int, mode: Mode) returns (r: Outcome)
      modifies this
      ensures Transaction(old(Snapshot()), now, Command.Claim(worker, leaseMs, mode), Snapshot(), r)
      ensures r.Ok? && r.value.Lease? ==>
        && r.value.op in records && records[r.value.op].state == Running && records[r.value.op].leaseEpoch == r.value.epoch
        && records[r.value.op].workerId == Some(worker) && records[r.value.op].leaseExpires == Some(now + leaseMs)
    {
      ghost var before := Snapshot();
      var next := FindNext(mode);
      if leaseMs < 1000 || leaseMs > 300000 {
        r := Err(InvalidLease);
      } else if next.None? {
        r := Ok(NoWork);
      } else {
        var id := next.value;
        var row := records[id];
        var epoch := row.leaseEpoch + 1;
        records := records[id := row.(state := Running, workerId := Some(worker), leaseEpoch := epoch,
                                      leaseExpires := Some(now + leaseMs), updatedAt := now)];
        Append(id, worker, Claimed(epoch, leaseMs), now);
        r := Ok(Lease(id, epoch, row.task, row.repository, row.acceptance, mode));
      }
      assert ClaimStep(before, now, worker, leaseMs, mode, next) == (Snapshot(), r);
      Commit(before, now, Command.Claim(worker, leaseMs, mode), Choice(next, []), Snapshot(), r);
    }

    method Beat(now: int, id: OperationId, worker: string, epoch: int, leaseMs: int) returns (r: Outcome)
      modifies this
      ensures Transaction(old(Snapshot()), now, Command.Beat(id, worker, epoch, leaseMs), Snapshot(), r)
    {
      ghost var before := Snapshot();
      if !Owns(Snapshot(), now, id, worker, epoch) {
        r := Err(StaleLease);
      } else {
        records := records[id := records[id].(leaseExpires := Some(now + leaseMs), updatedAt := now)];
        Append(id, worker, Heartbeat(epoch, leaseMs), now);
        r := Ok(Done);
      }
      Commit(before, now, Command.Beat(id, worker, epoch, leaseMs), Choice(None, []), Snapshot(), r);
    }

    method Advance(now: int, id: OperationId, worker: string, epoch: int, stage: string, message: string) returns (r: Outcome)
      modifies this
      ensures Transaction(old(Snapshot()), now, Command.Advance(id, worker, epoch, stage, message), Snapshot(), r)
    {
      ghost var before := Snapshot();
      if !ValidStage(stage) || !ValidReason(message) {
        r := Err(InvalidProgress);
      } else if !Owns(Snapshot(), now, id, worker, epoch) {
        r := Err(StaleLease);
      } else {
        records := records[id := records[id].(stage := stage, updatedAt := now)];
        Append(id, worker, Progress(stage, message), now);
        r := Ok(Done);
      }
      Commit(before, now, Command.Advance(id, worker, epoch, stage, message), Choice(None, []), Snapshot(), r);
    }

    /** The `INSERT OR IGNORE` loop of `submitReview` and `attachReviewEvidence`. */
    method FileReceipts(id: OperationId, submissions: seq<Submission>)
      modifies this`receipts
      ensures receipts == InsertReceipts(old(receipts), id, submissions)
    {
      for i := 0 to |submissions|
        invariant receipts == InsertReceipts(old(receipts), id, submissions[..i])
      {
        assert submissions[..i + 1][..i] == submissions[..i];
        var key := ReceiptKey(id, submissions[i].criterion, submissions[i].uri);
        if key !in receipts {
          receipts := receipts[key := Receipt(submissions[i].sourceId, None, None)];
        }
      }
      assert submissions[..|submissions|] == submissions;
    }

    method SubmitReview(now: int, id: OperationId, worker: string, epoch: int, submissions: seq<Submission>) returns (r: Outcome)
      modifies this
      ensures Transaction(old(Snapshot()), now, Command.SubmitReview(id, worker, epoch, submissions), Snapshot(), r)
    {
      ghost var before := Snapshot();
      if !Owns(Snapshot(), now, id, worker, epoch) {
        r := Err(StaleLease);
      } else if !ValidSubmissions(records[id], submissions) {
        r := Err(InvalidEvidence);
      } else {
        FileReceipts(id, submissions);
        records := records[id := ToReview(records[id], now)];
        Append(id, worker, SubmittedForReview(|submissions|), now);
        r := Ok(Done);
      }
      assert SubmitReviewStep(before, now, id, worker, epoch, submissions) == (Snapshot(), r);
      CommitReview(before, now, id, worker, epoch, submissions, Snapshot(), r);
    }

    method MarkUncertain(now: int, id: OperationId, worker: string, epoch: int, message: string) returns (r: Outcome)
      modifies this
      ensures Transaction(old(Snapshot()), now, Command.MarkUncertain(id, worker, epoch, message), Snapshot(), r)
    {
      ghost var before := Snapshot();
      if !ValidReason(message) {
        r := Err(InvalidReason);
      } else if !Owns(Snapshot(), now, id, worker, epoch) {
        r := Err(StaleLease);
      } else {
        records := records[id := records[id].(state := Uncertain, leaseExpires := None, updatedAt := now)];
        Append(id, worker, OutcomeUncertain(message), now);
        r := Ok(Done);
      }
      Commit(before, now, Command.MarkUncertain(id, worker, epoch, message), Choice(None, []), Snapshot(), r);
    }

    method ReadyWithoutProof(now: int, id: OperationId, worker: string, epoch: int, summary: string) returns (r: Outcome)
      modifies this
      ensures Transaction(old(Snapshot()), now, Command.ReadyWithoutProof(id, worker, epoch, summary), Snapshot(), r)
    {
      ghost var before := Snapshot();
      if !ValidReason(summary) {
        r := Err(InvalidReason);
      } else if !Owns(Snapshot(), now, id, worker, epoch) {
        r := Err(StaleLease);
      } else {
        records := records[id := ToReview(records[id], now)];
        Append(id, worker, ReviewPendingEvidence(summary), now);
        r := Ok(Done);
      }
      Commit(before, now, Command.ReadyWithoutProof(id, worker, epoch, summary), Choice(None, []), Snapshot(), r);
    }

    method AttachEvidence(now: int, id: OperationId, verifier: string, submissions: seq<Submission>) returns (r: Outcome)
      modifies this
      ensures Transaction(old(Snapshot()), now, Command.AttachEvidence(id, verifier, submissions), Snapshot(), r)
    {
      ghost var before := Snapshot();
      if id !in records || records[id].state != ReviewReady {
        r := Err(NotAwaitingReview);
      } else if !ValidSubmissions(records[id], submissions) || |submissions| > 50 {
        r := Err(InvalidEvidence);
      } else {
        FileReceipts(id, submissions);
        Append(id, verifier, EvidenceAttached(|submissions|), now);
        r := Ok(Done);
      }
      assert AttachStep(before, now, id, verifier, submissions) == (Snapshot(), r);
      Commit(before, now, Command.AttachEvidence(id, verifier, submissions), Choice(None, []), Snapshot(), r);
    }

    /** The loops of `certify`: mark the selected receipts verified one by one, and stop
        midway at a criterion without selection or a uri that was never submitted. */
    method MarkSelected(now: int, id: OperationId, verifier: string, criteria: seq<string>, evidence: map<string, seq<string>>)
      returns (complete: bool)
      modifies this`receipts
      ensures complete <==> CertifiableFor(old(receipts), id, criteria, evidence)
      ensures complete ==> receipts == MarkVerified(old(receipts), SelectedKeys(old(receipts), id, criteria, evidence), verifier, now)
    {
      ghost var before := receipts;
      for i := 0 to |criteria|
        invariant receipts == MarkVerified(before, SelectedKeys(before, id, criteria[..i], evidence), verifier, now)
        invariant CertifiableFor(before, id, criteria[..i], evidence)
      {
        var criterion := criteria[i];
        assert criteria[..i + 1] == criteria[..i] + [criterion];
        if criterion !in evidence || evidence[criterion] == [] { return false; }
        var found := MarkUris(now, id, verifier, criterion, evidence[criterion], before, SelectedKeys(before, id, criteria[..i], evidence));
        if !found { return false; }
        SelectNext(before, id, criteria, i, evidence);
      }
      assert criteria[..|criteria|] == criteria;
      return true;
    }

    method MarkUris(now: int, id: OperationId, verifier: string, criterion: string, uris: seq<string>,
                    ghost before: map<ReceiptKey, Receipt>, ghost done: set<ReceiptKey>)
      returns (found: bool)
      requires receipts == MarkVerified(before, done, verifier, now)
      modifies this`receipts
      ensures found <==> forall u :: u in uris ==> ReceiptKey(id, criterion, u) in before
      ensures found ==> receipts == MarkVerified(before, done + KeysFor(id, criterion, uris), verifier, now)
    {
      for j := 0 to |uris|
        invariant receipts == MarkVerified(before, done + KeysFor(id, criterion, uris[..j]), verifier, now)
        invariant forall u :: u in uris[..j] ==> ReceiptKey(id, criterion, u) in before
      {
        var key := ReceiptKey(id, criterion, uris[j]);
        assert uris[..j + 1] == uris[..j] + [uris[j]];
        if key !in receipts { return false; }
        receipts := receipts[key := receipts[key].(verifiedAt := Some(now), verifier := Some(verifier))];
        assert KeysFor(id, criterion, uris[..j + 1]) == KeysFor(id, criterion, uris[..j]) + {key};
      }
      assert uris[..|uris|] == uris;
      return true;
    }

    method Certify(now: int, id: OperationId, verifier: string, evidence: map<string, seq<string>>) returns (r: Outcome)
      modifies this
      ensures Transaction(old(Snapshot()), now, Command.Certify(id, verifier, evidence), Snapshot(), r)
    {
      var saved := Snapshot();
      if id !in records || records[id].state != ReviewReady {
        r := Err(NotAwaitingReview);
      } else {
        var criteria := records[id].acceptance;
        var complete := MarkSelected(now, id, verifier, criteria, evidence);
        if !complete {
          Rollback(saved);
          r := Err(NotCertifiable);
        } else {
          records := records[id := records[id].(state := Satisfied, updatedAt := now)];
          Append(id, verifier, Verified(criteria), now);
          r := Ok(Decided(DecisionOf(Snapshot(), id, false)));
        }
      }
      assert CertifyStep(saved, now, id, verifier, evidence) == (Snapshot(), r);
      Commit(saved, now, Command.Certify(id, verifier, evidence), Choice(None, []), Snapshot(), r);
    }

    method ReconcileExpired(now: int) returns (r: Outcome)
      modifies this
      ensures Transaction(old(Snapshot()), now, Command.ReconcileExpired, Snapshot(), r)
    {
      ghost var before := Snapshot();
      var order := SelectExpired(now);
      var rows := records;
      for i := 0 to |order|
        invariant forall id :: id in order[..i] ==> id in before.records
        invariant Snapshot() == ExpireAll(before, now, order[..i])
      {
        assert order[..i + 1][..i] == order[..i];
        var row := rows[order[i]];
        records := records[order[i] := ExpireRow(row, now)];
        Append(order[i], "broker", LeaseExpired(row.workerId, row.leaseEpoch), now);
      }
      assert order[..|order|] == order;
      r := Ok(Reconciled(|order|));
      Commit(before, now, Command.ReconcileExpired, Choice(None, order), Snapshot(), r);
    }
  }

  function KeysFor(id: OperationId, criterion: string, uris: seq<string>): set<ReceiptKey> {
    set u | u in uris :: ReceiptKey(id, criterion, u)
  }

  lemma SelectNext(receipts: map<ReceiptKey, Receipt>, id: OperationId, criteria: seq<string>, i: nat, evidence: map<string, seq<string>>)
    requires i < |criteria| && criteria[i] in evidence
    requires forall u :: u in evidence[criteria[i]] ==> ReceiptKey(id, criteria[i], u) in receipts
    ensures SelectedKeys(receipts, id, criteria[..i + 1], evidence) ==
            SelectedKeys(receipts, id, criteria[..i], evidence) + KeysFor(id, criteria[i], evidence[criteria[i]])
  {
    assert criteria[..i + 1] == criteria[..i] + [criteria[i]];
  }
}
