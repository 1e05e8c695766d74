/** What every run of the ledger keeps: the tables' invariant, the one-way life of a
    record, the complete event log, evidence before completion, and lease fencing. */
module LedgerRuns {
  import opened Basics
  import opened Ordering
  import opened Text
  import opened LedgerModel

  // ------------------------------------------------------------ event log

  /** The part of a row that its events determine. */
  datatype View = View(state: WorkState, stage: string, epoch: int, worker: Option<string>)

  function ViewOf(row: Row): View {
    View(row.state, row.stage, row.leaseEpoch, row.workerId)
  }

  /** What one event says happened to its operation. */
  function After(v: Option<View>, actor: string, kind: Kind): Option<View> {
    match kind
    case Admitted(_, _, _) => Some(View(Queued, "planned", 0, None))
    case _ =>
      if v.None? then None
      else match kind
      case Claimed(epoch, _) => Some(v.value.(state := Running, epoch := epoch, worker := Some(actor)))
      case Progress(stage, _) => Some(v.value.(stage := stage))
      case SubmittedForReview(_) => Some(v.value.(state := ReviewReady, stage := "review"))
      case ReviewPendingEvidence(_) => Some(v.value.(state := ReviewReady, stage := "review"))
      case OutcomeUncertain(_) => Some(v.value.(state := Uncertain))
      case LeaseExpired(_, _) => Some(v.value.(state := Uncertain, worker := None))
      case Verified(_) => Some(v.value.(state := Satisfied))
      case _ => v
  }

  /** Folding one operation's events, in sequence order. */
  function Replay(events: seq<Event>, id: OperationId): Option<View> {
    if events == [] then None
    else
      var last := events[|events| - 1];
      var before := Replay(events[..|events| - 1], id);
      if last.op == id then After(before, last.actor, last.kind) else before
  }

  function ClaimCount(events: seq<Event>, id: OperationId): nat {
    if events == [] then 0
    else
      var last := events[|events| - 1];
      ClaimCount(events[..|events| - 1], id) + if last.op == id && last.kind.Claimed? then 1 else 0
  }

  lemma AppendEvent(events: seq<Event>, e: Event, id: OperationId)
    ensures Replay(events + [e], id) == if e.op == id then After(Replay(events, id), e.actor, e.kind) else Replay(events, id)
    ensures ClaimCount(events + [e], id) == ClaimCount(events, id) + if e.op == id && e.kind.Claimed? then 1 else 0
  {
    assert (events + [e])[..|events|] == events;
  }

  // ------------------------------------------------------------ invariant

  /** The shape of a row in each state a record can be in. */
  predicate RowOk(row: Row) {
    match row.state
    case Queued => row.leaseEpoch == 0 && row.leaseExpires.None? && row.workerId.None? && row.stage == "planned"
    case Running => row.leaseEpoch == 1 && row.leaseExpires.Some? && row.workerId.Some?
    case ReviewReady => row.leaseEpoch == 1 && row.leaseExpires.None? && row.workerId.Some? && row.stage == "review"
    case Satisfied => row.leaseEpoch == 1 && row.leaseExpires.None? && row.workerId.Some? && row.stage == "review"
    case Uncertain => row.leaseEpoch == 1 && row.leaseExpires.None?
    case _ => false
  }

  ghost predicate RowsOk(t: Tables) {
    forall id :: id in t.records ==> RowOk(t.records[id])
  }

  ghost predicate LogOk(t: Tables) {
    forall id ::
      && Replay(t.events, id) == (if id in t.records then Some(ViewOf(t.records[id])) else None)
      && ClaimCount(t.events, id) == (if id in t.records then t.records[id].leaseEpoch else 0)
  }

  ghost predicate IngressOk(t: Tables) {
    forall k :: k in t.ingress ==> t.ingress[k].op in t.records && t.records[t.ingress[k].op].principal == k.principal
  }

  ghost predicate ReceiptOk(t: Tables, k: ReceiptKey)
    requires k in t.receipts
  {
    && k.op in t.records && k.criterion in t.records[k.op].acceptance
    && t.records[k.op].state in {ReviewReady, Satisfied}
    && (t.receipts[k].verifiedAt.Some? ==> t.records[k.op].state == Satisfied)
  }

  ghost predicate ReceiptsOk(t: Tables) {
    forall k :: k in t.receipts ==> ReceiptOk(t, k)
  }

  /** Some verified receipt was submitted for this criterion of this operation. */
  ghost predicate HasProof(receipts: map<ReceiptKey, Receipt>, id: OperationId, criterion: string) {
    exists uri :: ReceiptKey(id, criterion, uri) in receipts && receipts[ReceiptKey(id, criterion, uri)].verifiedAt.Some?
  }

  ghost predicate CompletionOk(t: Tables) {
    forall id, c :: id in t.records && t.records[id].state == Satisfied && c in t.records[id].acceptance
      ==> HasProof(t.receipts, id, c)
  }

  predicate SameGoal(a: Row, b: Row) {
    !Deliberate(a.purpose) && !Deliberate(b.purpose) && a.principal == b.principal && a.goal == b.goal
  }

  /** One goal has at most one record that was not deliberately repeated. */
  ghost predicate GoalsOk(t: Tables) {
    forall a, b :: a in t.records && b in t.records && SameGoal(t.records[a], t.records[b]) ==> a == b
  }

  ghost predicate Inv(t: Tables) {
    RowsOk(t) && LogOk(t) && IngressOk(t) && ReceiptsOk(t) && CompletionOk(t) && GoalsOk(t)
  }

  // ------------------------------------------------------------- evolution

  predicate SameWork(a: Row, b: Row) {
    && a.principal == b.principal && a.goal == b.goal && a.repository == b.repository && a.task == b.task
    && a.acceptance == b.acceptance && a.purpose == b.purpose && a.mode == b.mode
    && a.source == b.source && a.createdAt == b.createdAt
  }

  /** The edges of a record's life. */
  predicate Edge(a: WorkState, b: WorkState) {
    || (a == Queued && b == Running)
    || (a == Running && b in {ReviewReady, Uncertain})
    || (a == ReviewReady && b == Satisfied)
  }

  /** Zero or more edges. */
  predicate CanBecome(a: WorkState, b: WorkState) {
    || a == b
    || (a == Queued && b in {Running, ReviewReady, Uncertain, Satisfied})
    || (a == Running && b in {ReviewReady, Uncertain, Satisfied})
    || (a == ReviewReady && b == Satisfied)
  }

  predicate RowEvolves(a: Row, b: Row) {
    && SameWork(a, b) && CanBecome(a.state, b.state) && a.leaseEpoch <= b.leaseEpoch
    && (a.state in {Satisfied, Uncertain} ==> b == a)
  }

  ghost predicate Evolves(t: Tables, u: Tables) {
    && (forall id :: id in t.records ==> id in u.records && RowEvolves(t.records[id], u.records[id]))
    && (forall k :: k in t.ingress ==> k in u.ingress && u.ingress[k] == t.ingress[k])
    && t.events <= u.events
    && (forall k :: k in t.receipts ==> k in u.receipts && u.receipts[k].sourceId == t.receipts[k].sourceId)
    && (forall k :: k in t.receipts && t.receipts[k].verifiedAt.Some? ==> u.receipts[k] == t.receipts[k])
  }

  lemma EvolvesTransitive(t: Tables, u: Tables, v: Tables)
    requires Evolves(t, u) && Evolves(u, v)
    ensures Evolves(t, v)
  {
    forall id | id in t.records ensures id in v.records && RowEvolves(t.records[id], v.records[id]) {
      assert RowEvolves(t.records[id], u.records[id]) && RowEvolves(u.records[id], v.records[id]);
    }
  }

  /** One transaction moves a record along at most one edge, and new records start queued. */
  ghost predicate MovesOneEdge(t: Tables, u: Tables) {
    forall id :: id in u.records ==>
      if id in t.records then u.records[id].state == t.records[id].state || Edge(t.records[id].state, u.records[id].state)
      else u.records[id].state == Queued
  }

  ghost predicate Keeps(t: Tables, u: Tables) {
    Inv(u) && Evolves(t, u) && MovesOneEdge(t, u)
  }

  lemma NothingChanges(t: Tables)
    requires Inv(t)
    ensures Keeps(t, t)
  {}

  // -------------------------------------------- one row, one event, receipts

  /** The receipts other operations own are untouched; this one's stay within its criteria. */
  ghost predicate ReceiptsFor(t: Tables, id: OperationId, row: Row, receipts: map<ReceiptKey, Receipt>) {
    && (forall k :: k in t.receipts ==> k in receipts && receipts[k].sourceId == t.receipts[k].sourceId)
    && (forall k :: k in receipts && k.op != id ==> k in t.receipts && receipts[k] == t.receipts[k])
    && (forall k :: k in receipts && k.op == id ==> k.criterion in row.acceptance && row.state in {ReviewReady, Satisfied})
    && (forall k :: k in receipts && k.op == id && receipts[k].verifiedAt.Some? ==> row.state == Satisfied)
    && (row.state == Satisfied ==> forall c :: c in row.acceptance ==> HasProof(receipts, id, c))
  }

  ghost predicate RowStep(t: Tables, id: OperationId, row: Row, actor: string, kind: Kind) {
    && id in t.records
    && var old_ := t.records[id];
    && SameWork(old_, row) && RowOk(row)
    && (old_.state == row.state || Edge(old_.state, row.state))
    && old_.state !in {Satisfied, Uncertain}
    && After(Some(ViewOf(old_)), actor, kind) == Some(ViewOf(row)) && !kind.Admitted?
    && row.leaseEpoch == old_.leaseEpoch + (if kind.Claimed? then 1 else 0)
  }

  function Written(t: Tables, now: int, id: OperationId, row: Row, actor: string, kind: Kind, receipts: map<ReceiptKey, Receipt>): Tables {
    Log(SetRow(t.(receipts := receipts), id, row), id, actor, kind, now)
  }

  lemma WriteKeeps(t: Tables, now: int, id: OperationId, row: Row, actor: string, kind: Kind, receipts: map<ReceiptKey, Receipt>)
    requires Inv(t) && RowStep(t, id, row, actor, kind) && ReceiptsFor(t, id, row, receipts)
    ensures var u := Written(t, now, id, row, actor, kind, receipts); Keeps(t, u)
  {
    hide LogOk, ReceiptsOk, CompletionOk, GoalsOk;
    WriteKeepsLog(t, now, id, row, actor, kind, receipts);
    WriteKeepsReceipts(t, now, id, row, actor, kind, receipts);
    WriteKeepsCompletion(t, now, id, row, actor, kind, receipts);
    WriteKeepsGoals(t, now, id, row, actor, kind, receipts);
    WriteKeepsRows(t, now, id, row, actor, kind, receipts);
  }

  lemma WriteKeepsLog(t: Tables, now: int, id: OperationId, row: Row, actor: string, kind: Kind, receipts: map<ReceiptKey, Receipt>)
    requires LogOk(t) && RowStep(t, id, row, actor, kind)
    ensures LogOk(Written(t, now, id, row, actor, kind, receipts))
  {
    forall o { AppendEvent(t.events, Event(id, actor, kind, now), o); }
  }

  lemma WriteKeepsReceipts(t: Tables, now: int, id: OperationId, row: Row, actor: string, kind: Kind, receipts: map<ReceiptKey, Receipt>)
    requires ReceiptsOk(t) && RowStep(t, id, row, actor, kind) && ReceiptsFor(t, id, row, receipts)
    ensures ReceiptsOk(Written(t, now, id, row, actor, kind, receipts))
    ensures forall k :: k in t.receipts && t.receipts[k].verifiedAt.Some? ==> receipts[k] == t.receipts[k]
  {
    forall k | k in t.receipts ensures t.receipts[k].verifiedAt.Some? ==> receipts[k] == t.receipts[k] {
      assert ReceiptOk(t, k);
    }
    var u := Written(t, now, id, row, actor, kind, receipts);
    forall k | k in u.receipts ensures ReceiptOk(u, k) {
      assert k.op != id ==> ReceiptOk(t, k);
    }
  }

  lemma WriteKeepsCompletion(t: Tables, now: int, id: OperationId, row: Row, actor: string, kind: Kind, receipts: map<ReceiptKey, Receipt>)
    requires CompletionOk(t) && RowStep(t, id, row, actor, kind) && ReceiptsFor(t, id, row, receipts)
    ensures CompletionOk(Written(t, now, id, row, actor, kind, receipts))
  {
    var u := Written(t, now, id, row, actor, kind, receipts);
    forall o, c | o in u.records && u.records[o].state == Satisfied && c in u.records[o].acceptance
      ensures HasProof(u.receipts, o, c) {
      if o != id {
        var uri :| ReceiptKey(o, c, uri) in t.receipts && t.receipts[ReceiptKey(o, c, uri)].verifiedAt.Some?;
        assert u.receipts[ReceiptKey(o, c, uri)].verifiedAt.Some?;
      }
    }
  }

  lemma WriteKeepsRows(t: Tables, now: int, id: OperationId, row: Row, actor: string, kind: Kind, receipts: map<ReceiptKey, Receipt>)
    requires RowsOk(t) && IngressOk(t) && RowStep(t, id, row, actor, kind)
    ensures var u := Written(t, now, id, row, actor, kind, receipts);
            RowsOk(u) && IngressOk(u) && MovesOneEdge(t, u)
            && (forall o :: o in t.records ==> o in u.records && RowEvolves(t.records[o], u.records[o]))
  {}

  lemma WriteKeepsGoals(t: Tables, now: int, id: OperationId, row: Row, actor: string, kind: Kind, receipts: map<ReceiptKey, Receipt>)
    requires GoalsOk(t) && id in t.records && SameWork(t.records[id], row)
    ensures GoalsOk(Written(t, now, id, row, actor, kind, receipts))
  {
    var u := Written(t, now, id, row, actor, kind, receipts);
    forall a, b | a in u.records && b in u.records && SameGoal(u.records[a], u.records[b]) ensures a == b {
      assert SameGoal(t.records[a], t.records[b]);
    }
  }

  /** Receipts stay as they are while their operation cannot have any. */
  lemma KeepReceipts(t: Tables, id: OperationId, row: Row)
    requires ReceiptsOk(t) && id in t.records
    requires t.records[id].state in {Queued, Running} && row.state != Satisfied
    ensures ReceiptsFor(t, id, row, t.receipts)
  {
    forall k | k in t.receipts ensures k.op != id { assert ReceiptOk(t, k); }
  }

  // ------------------------------------------------------- each transaction

  lemma AdmitKeeps(t: Tables, now: int, principal: string, mode: Mode, input: Intent, goal: GoalKey,
                   freshId: OperationId, same: Option<OperationId>)
    requires Inv(t) && IsLatest(t, principal, goal, same)
    ensures var u := AdmitStep(t, now, principal, mode, input, goal, freshId, same).0;
            Keeps(t, u)
  {
    hide Inv, Evolves, MovesOneEdge, Keeps;
    NothingChanges(t);
    var key := IngressKey(principal, input.source, input.requestId);
    if key !in t.ingress {
      if same.Some? && !Deliberate(input.purpose) {
        JoinKeeps(t, now, key, IngressRow(DigestOf(mode, input), same.value), same.value);
      } else if freshId !in t.records {
        InsertKeeps(t, now, principal, mode, input, goal, freshId, same);
      }
    }
  }

  /** A new ingress reference to a record, with an event that does not move it. */
  lemma JoinKeeps(t: Tables, now: int, key: IngressKey, ref: IngressRow, id: OperationId)
    requires Inv(t) && key !in t.ingress && ref.op == id && id in t.records && t.records[id].principal == key.principal
    ensures var u := Log(t.(ingress := t.ingress[key := ref]), id, key.principal, JoinedExisting(key.source, key.requestId), now);
            Keeps(t, u)
  {
    hide RowsOk, LogOk, ReceiptsOk, CompletionOk, GoalsOk;
    var kind := JoinedExisting(key.source, key.requestId);
    var u := Log(t.(ingress := t.ingress[key := ref]), id, key.principal, kind, now);
    JoinKeepsLog(t, u, Event(id, key.principal, kind, now));
    JoinKeepsRecords(t, u);
  }

  lemma JoinKeepsLog(t: Tables, u: Tables, e: Event)
    requires LogOk(t) && u.records == t.records && u.events == t.events + [e] && e.kind.JoinedExisting?
    ensures LogOk(u)
  {
    forall o { AppendEvent(t.events, e, o); }
  }

  lemma JoinKeepsRecords(t: Tables, u: Tables)
    requires RowsOk(t) && ReceiptsOk(t) && CompletionOk(t) && GoalsOk(t)
    requires u.records == t.records && u.receipts == t.receipts
    ensures RowsOk(u) && ReceiptsOk(u) && CompletionOk(u) && GoalsOk(u)
  {
    forall k | k in u.receipts ensures ReceiptOk(u, k) { assert ReceiptOk(t, k); }
  }

  lemma InsertKeeps(t: Tables, now: int, principal: string, mode: Mode, input: Intent, goal: GoalKey,
                    freshId: OperationId, same: Option<OperationId>)
    requires Inv(t) && IsLatest(t, principal, goal, same) && freshId !in t.records
    requires same.Some? ==> Deliberate(input.purpose)
    requires IngressKey(principal, input.source, input.requestId) !in t.ingress
    ensures var u := InsertStep(t, now, principal, mode, input, goal, freshId, same).0;
            Keeps(t, u)
  {
    hide RowsOk, LogOk, IngressOk, ReceiptsOk, CompletionOk, GoalsOk, Evolves, MovesOneEdge, IsLatest;
    var u := InsertStep(t, now, principal, mode, input, goal, freshId, same).0;
    InsertKeepsLog(t, u, freshId, Event(freshId, principal, Admitted(input.source, input.purpose, same), now));
    InsertKeepsReceipts(t, u, freshId);
    InsertKeepsGoals(t, u, freshId, same);
    InsertKeepsRows(t, u, freshId, IngressKey(principal, input.source, input.requestId));
  }

  lemma InsertKeepsRows(t: Tables, u: Tables, id: OperationId, key: IngressKey)
    requires RowsOk(t) && IngressOk(t) && id !in t.records && key !in t.ingress
    requires id in u.records && u.records == t.records[id := u.records[id]] && u.receipts == t.receipts && t.events <= u.events
    requires key in u.ingress && u.ingress == t.ingress[key := u.ingress[key]] && u.ingress[key].op == id
    requires RowOk(u.records[id]) && u.records[id].state == Queued && u.records[id].principal == key.principal
    ensures RowsOk(u) && IngressOk(u) && Evolves(t, u) && MovesOneEdge(t, u)
  {}

  lemma InsertKeepsLog(t: Tables, u: Tables, id: OperationId, e: Event)
    requires LogOk(t) && id !in t.records && id in u.records && u.records == t.records[id := u.records[id]]
    requires u.events == t.events + [e] && e.op == id && e.kind.Admitted?
    requires ViewOf(u.records[id]) == View(Queued, "planned", 0, None)
    ensures LogOk(u)
  {
    forall o { AppendEvent(t.events, e, o); }
  }

  lemma InsertKeepsReceipts(t: Tables, u: Tables, id: OperationId)
    requires ReceiptsOk(t) && CompletionOk(t) && id !in t.records
    requires id in u.records && u.records == t.records[id := u.records[id]] && u.receipts == t.receipts
    requires u.records[id].state == Queued
    ensures ReceiptsOk(u) && CompletionOk(u)
  {
    forall k | k in u.receipts ensures ReceiptOk(u, k) { assert ReceiptOk(t, k); }
  }

  lemma InsertKeepsGoals(t: Tables, u: Tables, id: OperationId, same: Option<OperationId>)
    requires GoalsOk(t) && id !in t.records && id in u.records && u.records == t.records[id := u.records[id]]
    requires IsLatest(t, u.records[id].principal, u.records[id].goal, same)
    requires same.Some? ==> Deliberate(u.records[id].purpose)
    ensures GoalsOk(u)
  {
    var row := u.records[id];
    forall a, b | a in u.records && b in u.records && SameGoal(u.records[a], u.records[b]) ensures a == b {
      assert forall o :: o in t.records && SameGoal(row, t.records[o]) ==> Matches(t.records[o], row.principal, row.goal);
      if a != id && b != id { assert SameGoal(t.records[a], t.records[b]); }
    }
  }

  lemma ClaimKeeps(t: Tables, now: int, worker: string, leaseMs: int, mode: Mode, next: Option<OperationId>)
    requires Inv(t) && IsNext(t, mode, next)
    ensures var u := ClaimStep(t, now, worker, leaseMs, mode, next).0; Keeps(t, u)
  {
    hide LogOk, IngressOk, ReceiptsOk, CompletionOk, GoalsOk, Evolves, MovesOneEdge, Keeps, ReceiptsFor, Blank;
    NothingChanges(t);
    if 1000 <= leaseMs <= 300000 && next.Some? {
      var row := t.records[next.value];
      var claimed := row.(state := Running, workerId := Some(worker), leaseEpoch := row.leaseEpoch + 1,
                          leaseExpires := Some(now + leaseMs), updatedAt := now);
      KeepReceipts(t, next.value, claimed);
      WriteKeeps(t, now, next.value, claimed, worker, Claimed(row.leaseEpoch + 1, leaseMs), t.receipts);
    }
  }

  lemma OwnerKeeps(t: Tables, now: int, id: OperationId, worker: string, epoch: int, row: Row, kind: Kind)
    requires Inv(t) && Owns(t, now, id, worker, epoch) && RowStep(t, id, row, worker, kind) && row.state != Satisfied
    ensures var u := Write(t, now, id, worker, row, kind).0; Keeps(t, u)
  {
    KeepReceipts(t, id, row);
    WriteKeeps(t, now, id, row, worker, kind, t.receipts);
  }

  lemma OwnReceipts(t: Tables, id: OperationId)
    requires Inv(t) && id in t.records
    ensures ReceiptsFor(t, id, t.records[id], t.receipts)
  {
    forall k | k in t.receipts ensures ReceiptOk(t, k) {}
  }

  lemma FiledReceipts(t: Tables, id: OperationId, row: Row, s: seq<Submission>)
    requires ReceiptsFor(t, id, row, t.receipts) && row.state == ReviewReady && ValidSubmissions(row, s)
    ensures ReceiptsFor(t, id, row, InsertReceipts(t.receipts, id, s))
  {
    hide Blank, InsertReceipts;
    var filed := InsertReceipts(t.receipts, id, s);
    forall k | k in filed && k !in t.receipts ensures k.op == id && k.criterion in row.acceptance && filed[k].verifiedAt.None? {
      var i :| 0 <= i < |s| && k == ReceiptKey(id, s[i].criterion, s[i].uri);
      assert ValidSubmission(row, s[i]);
    }
  }

  lemma SubmitKeeps(t: Tables, now: int, id: OperationId, worker: string, epoch: int, s: seq<Submission>)
    requires Inv(t)
    ensures var u := SubmitReviewStep(t, now, id, worker, epoch, s).0; Keeps(t, u)
  {
    hide LogOk, IngressOk, ReceiptsOk, CompletionOk, GoalsOk, Evolves, MovesOneEdge, Keeps, ReceiptsFor, Blank;
    NothingChanges(t);
    if Owns(t, now, id, worker, epoch) && ValidSubmissions(t.records[id], s) {
      var row := ToReview(t.records[id], now);
      KeepReceipts(t, id, row);
      var filed := InsertReceipts(t.receipts, id, s);
      FiledReceipts(t, id, row, s);
      WriteKeeps(t, now, id, row, worker, SubmittedForReview(|s|), filed);
      assert SubmitReviewStep(t, now, id, worker, epoch, s).0 == Written(t, now, id, row, worker, SubmittedForReview(|s|), filed);
    }
  }

  lemma AttachWrites(t: Tables, now: int, id: OperationId, verifier: string, s: seq<Submission>)
    requires id in t.records && t.records[id].state == ReviewReady && ValidSubmissions(t.records[id], s) && |s| <= 50
    ensures AttachStep(t, now, id, verifier, s).0 ==
            Written(t, now, id, t.records[id], verifier, EvidenceAttached(|s|), InsertReceipts(t.receipts, id, s))
  {
    hide Blank;
    assert t.records[id := t.records[id]] == t.records;
  }

  lemma AttachKeeps(t: Tables, now: int, id: OperationId, verifier: string, s: seq<Submission>)
    requires Inv(t)
    ensures var u := AttachStep(t, now, id, verifier, s).0; Keeps(t, u)
  {
    NothingChanges(t);
    if id in t.records && t.records[id].state == ReviewReady && ValidSubmissions(t.records[id], s) && |s| <= 50 {
      AttachRowStep(t, id, verifier, s);
      hide Inv, Keeps, ReceiptsFor, RowStep, ValidSubmissions;
      WriteKeeps(t, now, id, t.records[id], verifier, EvidenceAttached(|s|), InsertReceipts(t.receipts, id, s));
      AttachWrites(t, now, id, verifier, s);
    }
  }

  lemma AttachRowStep(t: Tables, id: OperationId, verifier: string, s: seq<Submission>)
    requires Inv(t) && id in t.records && t.records[id].state == ReviewReady && ValidSubmissions(t.records[id], s)
    ensures RowStep(t, id, t.records[id], verifier, EvidenceAttached(|s|))
    ensures ReceiptsFor(t, id, t.records[id], InsertReceipts(t.receipts, id, s))
  {
    IdleRowStep(t, id, verifier, EvidenceAttached(|s|));
    hide RowStep, ReceiptsFor, ValidSubmissions;
    OwnReceipts(t, id);
    hide Inv;
    FiledReceipts(t, id, t.records[id], s);
  }

  lemma IdleRowStep(t: Tables, id: OperationId, actor: string, kind: Kind)
    requires RowsOk(t) && id in t.records && t.records[id].state == ReviewReady && kind.EvidenceAttached?
    ensures RowStep(t, id, t.records[id], actor, kind)
  {}

  lemma CertifyKeeps(t: Tables, now: int, id: OperationId, verifier: string, evidence: map<string, seq<string>>)
    requires Inv(t)
    ensures var u := CertifyStep(t, now, id, verifier, evidence).0; Keeps(t, u)
  {
    NothingChanges(t);
    if id in t.records && t.records[id].state == ReviewReady && CertifiableFor(t.receipts, id, t.records[id].acceptance, evidence) {
      CertifyRowStep(t, now, id, verifier, evidence);
      hide Inv, Keeps, ReceiptsFor, RowStep, CertifiableFor;
      var row := t.records[id];
      var marked := MarkVerified(t.receipts, SelectedKeys(t.receipts, id, row.acceptance, evidence), verifier, now);
      WriteKeeps(t, now, id, row.(state := Satisfied, updatedAt := now), verifier, Verified(row.acceptance), marked);
    }
  }

  lemma CertifyRowStep(t: Tables, now: int, id: OperationId, verifier: string, evidence: map<string, seq<string>>)
    requires Inv(t) && id in t.records && t.records[id].state == ReviewReady
    requires CertifiableFor(t.receipts, id, t.records[id].acceptance, evidence)
    ensures var row := t.records[id];
            var done := row.(state := Satisfied, updatedAt := now);
            var marked := MarkVerified(t.receipts, SelectedKeys(t.receipts, id, row.acceptance, evidence), verifier, now);
            RowStep(t, id, done, verifier, Verified(row.acceptance)) && ReceiptsFor(t, id, done, marked)
  {
    hide LogOk, IngressOk, CompletionOk, GoalsOk;
    var row := t.records[id];
    var marked := MarkVerified(t.receipts, SelectedKeys(t.receipts, id, row.acceptance, evidence), verifier, now);
    forall k | k in t.receipts ensures ReceiptOk(t, k) {}
    forall c | c in row.acceptance ensures HasProof(marked, id, c) {
      var u := evidence[c][0];
      assert u in evidence[c];
      assert marked[ReceiptKey(id, c, u)].verifiedAt.Some?;
    }
  }

  lemma {:induction false} ExpireAllRows(t: Tables, now: int, order: seq<OperationId>)
    requires forall id :: id in order ==> id in t.records
    ensures forall id :: id in t.records ==>
      ExpireAll(t, now, order).records[id] == if id in order then ExpireRow(t.records[id], now) else t.records[id]
  {
    if order != [] {
      var rest := order[..|order| - 1];
      assert order == rest + [order[|order| - 1]];
      ExpireAllRows(t, now, rest);
    }
  }

  lemma {:induction false} ExpireKeeps(t: Tables, now: int, order: seq<OperationId>)
    requires Inv(t)
    requires forall id :: id in order ==> id in t.records && Expired(t.records[id], now)
    requires forall i, j :: 0 <= i < j < |order| ==> order[i] != order[j]
    ensures Keeps(t, ExpireAll(t, now, order))
  {
    NothingChanges(t);
    if order != [] {
      hide Inv, Keeps;
      var last := order[|order| - 1];
      var rest := order[..|order| - 1];
      assert order == rest + [last];
      ExpireKeeps(t, now, rest);
      assert last !in rest;
      ExpireAllRows(t, now, rest);
      ExpireNext(t, ExpireAll(t, now, rest), now, last, ExpireAll(t, now, order));
    }
  }

  lemma ExpireNext(t: Tables, mid: Tables, now: int, id: OperationId, u: Tables)
    requires Keeps(t, mid) && id in t.records && mid.records[id] == t.records[id] && Expired(t.records[id], now)
    requires mid.records.Keys == t.records.Keys
    requires var row := t.records[id];
             u == Log(SetRow(mid, id, ExpireRow(row, now)), id, "broker", LeaseExpired(row.workerId, row.leaseEpoch), now)
    ensures Keeps(t, u)
  {
    ExpireOneKeeps(mid, now, id, u);
    EvolvesTransitive(t, mid, u);
  }

  lemma ExpireOneKeeps(t: Tables, now: int, id: OperationId, u: Tables)
    requires Inv(t) && id in t.records && Expired(t.records[id], now)
    requires var row := t.records[id];
             u == Log(SetRow(t, id, ExpireRow(row, now)), id, "broker", LeaseExpired(row.workerId, row.leaseEpoch), now)
    ensures Keeps(t, u)
  {
    var row := t.records[id];
    KeepReceipts(t, id, ExpireRow(row, now));
    WriteKeeps(t, now, id, ExpireRow(row, now), "broker", LeaseExpired(row.workerId, row.leaseEpoch), t.receipts);
  }

  /** Every transaction keeps the invariant, only adds to the tables, and moves each
      record along at most one edge of its life. */
  lemma ApplyKeeps(t: Tables, now: int, cmd: Command, choice: Choice)
    requires Inv(t) && Allowed(t, now, cmd, choice)
    ensures var u := Apply(t, now, cmd, choice).0; Keeps(t, u)
  {
    match cmd
    case Admit(principal, mode, input, freshId) => AdmitKeeps(t, now, principal, mode, input, GoalKeyOf(principal, input), freshId, choice.pick);
    case Claim(worker, leaseMs, mode) => ClaimKeeps(t, now, worker, leaseMs, mode, choice.pick);
    case SubmitReview(id, worker, epoch, s) => SubmitKeeps(t, now, id, worker, epoch, s);
    case AttachEvidence(id, verifier, s) => AttachKeeps(t, now, id, verifier, s);
    case Certify(id, verifier, evidence) => CertifyKeeps(t, now, id, verifier, evidence);
    case ReconcileExpired => ExpireKeeps(t, now, choice.order);
    case _ => OwnerCommandKeeps(t, now, cmd, choice);
  }

  lemma OwnerCommandKeeps(t: Tables, now: int, cmd: Command, choice: Choice)
    requires Inv(t) && (cmd.Beat? || cmd.Advance? || cmd.MarkUncertain? || cmd.ReadyWithoutProof?)
    ensures var u := Apply(t, now, cmd, choice).0; Keeps(t, u)
  {
    hide LogOk, IngressOk, ReceiptsOk, CompletionOk, GoalsOk, Evolves, MovesOneEdge, Keeps, ReceiptsFor, Blank;
    NothingChanges(t);
    if Owns(t, now, cmd.op, cmd.worker, cmd.epoch) {
      var row := t.records[cmd.op];
      var (after, kind) :=
        match cmd
        case Beat(_, _, epoch, leaseMs) => (row.(leaseExpires := Some(now + leaseMs), updatedAt := now), Heartbeat(epoch, leaseMs))
        case Advance(_, _, _, stage, message) => (row.(stage := stage, updatedAt := now), Progress(stage, message))
        case MarkUncertain(_, _, _, message) => (row.(state := Uncertain, leaseExpires := None, updatedAt := now), OutcomeUncertain(message))
        case ReadyWithoutProof(_, _, _, summary) => (ToReview(row, now), ReviewPendingEvidence(summary));
      OwnerKeeps(t, now, cmd.op, cmd.worker, cmd.epoch, after, kind);
      var u := Apply(t, now, cmd, choice).0;
      assert u == t || u == Write(t, now, cmd.op, cmd.worker, after, kind).0;
    }
  }

  // ------------------------------------------------------------------ runs

  datatype Step = Step(now: int, cmd: Command, choice: Choice)

  /** A run: the tables before and after each step, starting from an empty database. */
  datatype Run = Run(tables: seq<Tables>, steps: seq<Step>)

  ghost predicate IsRun(r: Run) {
    && |r.tables| == |r.steps| + 1 && r.tables[0] == EmptyTables
    && forall i :: 0 <= i < |r.steps| ==> Follows(r, i)
  }

  ghost predicate Follows(r: Run, i: nat)
    requires i < |r.steps| && i + 1 < |r.tables|
  {
    var s := r.steps[i];
    Allowed(r.tables[i], s.now, s.cmd, s.choice) && r.tables[i + 1] == Apply(r.tables[i], s.now, s.cmd, s.choice).0
  }

  ghost function OutcomeOf(r: Run, i: nat): Outcome
    requires IsRun(r) && i < |r.steps|
  {
    assert Follows(r, i);
    var s := r.steps[i];
    Apply(r.tables[i], s.now, s.cmd, s.choice).1
  }

  /** The clock never runs backwards. */
  ghost predicate ClockOrdered(r: Run) {
    forall i, j :: 0 <= i <= j < |r.steps| ==> r.steps[i].now <= r.steps[j].now
  }

  lemma {:induction false} RunKeepsInv(r: Run, i: nat)
    requires IsRun(r) && i < |r.tables|
    ensures Inv(r.tables[i])
  {
    if i > 0 {
      RunKeepsInv(r, i - 1);
      assert Follows(r, i - 1);
      var s := r.steps[i - 1];
      ApplyKeeps(r.tables[i - 1], s.now, s.cmd, s.choice);
    }
  }

  lemma {:induction false} RunEvolves(r: Run, i: nat, j: nat)
    requires IsRun(r) && i <= j < |r.tables|
    ensures Evolves(r.tables[i], r.tables[j])
    decreases j
  {
    hide Evolves, Inv, Apply, Allowed;
    if i < j {
      RunEvolves(r, i, j - 1);
      RunKeepsInv(r, j - 1);
      assert Follows(r, j - 1);
      var s := r.steps[j - 1];
      ApplyKeeps(r.tables[j - 1], s.now, s.cmd, s.choice);
      EvolvesTransitive(r.tables[i], r.tables[j - 1], r.tables[j]);
    } else {
      EvolvesReflexive(r.tables[i]);
    }
  }

  lemma EvolvesReflexive(t: Tables)
    ensures Evolves(t, t)
  {}
}
