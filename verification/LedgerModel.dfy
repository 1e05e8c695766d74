/** The delegation ledger's tables and its transactions, as a step relation
    (extensions/ompk-delegations/ledger.ts). `WorkLedger` refines it in place. */
module LedgerModel {
  import opened Basics
  import opened Ordering
  import opened Text

  /** A UUID; text order on UUIDs is the order of the numbers they spell. */
  type OperationId = nat

  datatype WorkState = Queued | Running | ReviewReady | Satisfied | Blocked | Failed | Uncertain | Cancelled
  datatype Purpose = Status | Execute | Retry | Verify | Extend | Alternative
  datatype Mode = Personal | Shared

  datatype Target = Target(repository: string, operationId: Option<OperationId>)
  datatype Mission = Mission(task: string, acceptance: seq<string>)

  /** An ingress request. `source` is the request's source object as JSON text. */
  datatype Intent = Intent(requestId: string, purpose: Purpose, source: string, target: Target, mission: Mission)

  /** What the idempotency digest hashes. */
  datatype Digest = Digest(purpose: Purpose, mode: Mode, target: Target, mission: Mission)

  /** What the goal key hashes. */
  datatype GoalKey = GoalKey(principal: string, repository: string, task: string, acceptance: seq<string>)

  datatype Row = Row(
    principal: string, goal: GoalKey, repository: string, task: string, acceptance: seq<string>,
    purpose: Purpose, mode: Mode, source: string, createdAt: int,
    state: WorkState, stage: string, updatedAt: int,
    leaseEpoch: nat, leaseExpires: Option<int>, workerId: Option<string>)

  datatype IngressKey = IngressKey(principal: string, source: string, requestId: string)
  datatype IngressRow = IngressRow(digest: Digest, op: OperationId)

  datatype Kind =
    | Admitted(source: string, purpose: Purpose, predecessor: Option<OperationId>)
    | JoinedExisting(source: string, requestId: string)
    | Claimed(epoch: int, leaseMs: int)
    | Heartbeat(epoch: int, leaseMs: int)
    | Progress(stage: string, message: string)
    | SubmittedForReview(receiptCount: nat)
    | OutcomeUncertain(message: string)
    | ReviewPendingEvidence(summary: string)
    | EvidenceAttached(count: nat)
    | Verified(criteria: seq<string>)
    | LeaseExpired(priorOwner: Option<string>, epoch: int)

  datatype Event = Event(op: OperationId, actor: string, kind: Kind, at: int)

  datatype ReceiptKey = ReceiptKey(op: OperationId, criterion: string, uri: string)
  datatype Receipt = Receipt(sourceId: string, verifiedAt: Option<int>, verifier: Option<string>)
  datatype Submission = Submission(criterion: string, uri: string, sourceId: string)

  datatype Tables = Tables(
    records: map<OperationId, Row>,
    ingress: map<IngressKey, IngressRow>,
    events: seq<Event>,
    receipts: map<ReceiptKey, Receipt>)

  const EmptyTables := Tables(map[], map[], [], map[])

  datatype LedgerError =
    | ConflictingPayload | MissingRecord | DuplicateId | NotFound | InvalidLease | StaleLease
    | InvalidProgress | InvalidReason | InvalidEvidence | NotAwaitingReview | NotCertifiable

  datatype DecisionState = DSatisfied | DRunning | DPartial | DBlocked | DUnknown | DAdmitted

  /** `evidence` lists the verified receipts of the operation. */
  datatype Decision = Decision(state: DecisionState, op: Option<OperationId>, evidence: set<ReceiptKey>)

  datatype Reply =
    | Decided(decision: Decision)
    | Lease(op: OperationId, epoch: nat, task: string, repository: string, acceptance: seq<string>, mode: Mode)
    | NoWork
    | Done
    | Reconciled(count: nat)

  type Outcome = Result<Reply, LedgerError>

  // --------------------------------------------------------------- queries

  function GoalKeyOf(principal: string, input: Intent): GoalKey {
    GoalKey(principal, Lower(input.target.repository), Normalize(input.mission.task),
            Sort(NormalizeAll(input.mission.acceptance)))
  }

  function NormalizeAll(s: seq<string>): seq<string> {
    seq(|s|, i requires 0 <= i < |s| => Normalize(s[i]))
  }

  function DigestOf(mode: Mode, input: Intent): Digest {
    Digest(input.purpose, mode, input.target, input.mission)
  }

  predicate Deliberate(p: Purpose) {
    p in {Retry, Verify, Alternative, Extend}
  }

  function EvidenceOf(t: Tables, id: OperationId): set<ReceiptKey> {
    set k | k in t.receipts && k.op == id && t.receipts[k].verifiedAt.Some?
  }

  predicate Proven(criterion: string, evidence: set<ReceiptKey>) {
    exists k :: k in evidence && k.criterion == criterion
  }

  function DecisionOf(t: Tables, id: OperationId, admitted: bool): Decision
    requires id in t.records
  {
    var row := t.records[id];
    var evidence := EvidenceOf(t, id);
    var complete := row.state == Satisfied && forall c :: c in row.acceptance ==> Proven(c, evidence);
    Decision(
      if admitted then DAdmitted
      else if complete then DSatisfied
      else if row.state in {Queued, Running} then DRunning
      else if row.state in {Blocked, Failed, Uncertain, Cancelled} then DBlocked
      else DPartial,
      Some(id), evidence)
  }

  /** `WHERE principal=? AND goal_key=? ORDER BY created_at DESC LIMIT 1`, ties left open. */
  ghost predicate IsLatest(t: Tables, principal: string, goal: GoalKey, pick: Option<OperationId>) {
    match pick
    case None => forall id :: id in t.records ==> !Matches(t.records[id], principal, goal)
    case Some(id) =>
      && id in t.records && Matches(t.records[id], principal, goal)
      && forall o :: o in t.records && Matches(t.records[o], principal, goal) ==>
         t.records[o].createdAt <= t.records[id].createdAt
  }

  predicate Matches(row: Row, principal: string, goal: GoalKey) {
    row.principal == principal && row.goal == goal
  }

  predicate Claimable(row: Row, mode: Mode) {
    row.state == Queued && row.mode == mode
  }

  /** `WHERE state='queued' AND identity_mode=? ORDER BY created_at,id LIMIT 1` */
  ghost predicate IsNext(t: Tables, mode: Mode, pick: Option<OperationId>) {
    match pick
    case None => forall id :: id in t.records ==> !Claimable(t.records[id], mode)
    case Some(id) =>
      && id in t.records && Claimable(t.records[id], mode)
      && forall o :: o in t.records && Claimable(t.records[o], mode) ==>
         t.records[id].createdAt < t.records[o].createdAt ||
         (t.records[id].createdAt == t.records[o].createdAt && id <= o)
  }

  predicate Expired(row: Row, now: int) {
    row.state == Running && row.leaseExpires.Some? && row.leaseExpires.value <= now
  }

  /** The expired rows, each once; SQL leaves their order open. */
  ghost predicate IsExpiredList(t: Tables, now: int, order: seq<OperationId>) {
    && (forall id :: id in order <==> id in t.records && Expired(t.records[id], now))
    && (forall i, j :: 0 <= i < j < |order| ==> order[i] != order[j])
  }

  /** `assertOwner` does not throw. */
  predicate Owns(t: Tables, now: int, id: OperationId, worker: string, epoch: int) {
    && id in t.records
    && var row := t.records[id];
    && row.workerId == Some(worker) && row.leaseEpoch == epoch
    && row.leaseExpires.Some? && row.leaseExpires.value > now && row.state == Running
  }

  /** The answer to a status request that names no operation. */
  ghost predicate StatusOfGoal(t: Tables, principal: string, goal: GoalKey, d: Decision) {
    exists pick :: IsLatest(t, principal, goal, pick) &&
      d == if pick.Some? then DecisionOf(t, pick.value, false) else Decision(DUnknown, None, {})
  }

  // -------------------------------------------------------- argument checks

  predicate Blank(s: string) {
    Trim(s) == []
  }

  predicate ValidReason(s: string) {
    !Blank(s) && |s| <= 2000
  }

  predicate ValidStage(s: string) {
    s in {"planned", "implementing", "implemented", "testing", "tested", "committed", "pushed", "merged", "deployed", "review"}
  }

  predicate ValidSubmission(row: Row, s: Submission) {
    s.criterion in row.acceptance && ("https://" <= s.uri || "file://" <= s.uri) && !Blank(s.sourceId)
  }

  predicate ValidSubmissions(row: Row, s: seq<Submission>) {
    s != [] && forall i :: 0 <= i < |s| ==> ValidSubmission(row, s[i])
  }

  /** Every criterion has a nonempty list of uris, each submitted for that criterion. */
  predicate CertifiableFor(receipts: map<ReceiptKey, Receipt>, id: OperationId, criteria: seq<string>, evidence: map<string, seq<string>>) {
    forall c :: c in criteria ==>
      c in evidence && evidence[c] != [] && forall u :: u in evidence[c] ==> ReceiptKey(id, c, u) in receipts
  }

  // ---------------------------------------------------------- transactions

  datatype Command =
    | Admit(principal: string, mode: Mode, input: Intent, freshId: OperationId)
    | Claim(worker: string, leaseMs: int, mode: Mode)
    | Beat(op: OperationId, worker: string, epoch: int, leaseMs: int)
    | Advance(op: OperationId, worker: string, epoch: int, stage: string, message: string)
    | SubmitReview(op: OperationId, worker: string, epoch: int, submissions: seq<Submission>)
    | MarkUncertain(op: OperationId, worker: string, epoch: int, message: string)
    | ReadyWithoutProof(op: OperationId, worker: string, epoch: int, summary: string)
    | AttachEvidence(op: OperationId, verifier: string, submissions: seq<Submission>)
    | Certify(op: OperationId, verifier: string, evidence: map<string, seq<string>>)
    | ReconcileExpired

  /** What SQL leaves to the engine: the row a LIMIT 1 returns, the order of a plain SELECT. */
  datatype Choice = Choice(pick: Option<OperationId>, order: seq<OperationId>)

  /** `choice` is an answer the tables allow for the queries `cmd` makes. */
  ghost predicate Allowed(t: Tables, now: int, cmd: Command, choice: Choice) {
    match cmd
    case Admit(principal, _, input, _) => IsLatest(t, principal, GoalKeyOf(principal, input), choice.pick)
    case Claim(_, _, mode) => IsNext(t, mode, choice.pick)
    case ReconcileExpired => IsExpiredList(t, now, choice.order)
    case _ => true
  }

  function Log(t: Tables, id: OperationId, actor: string, kind: Kind, now: int): Tables {
    t.(events := t.events + [Event(id, actor, kind, now)])
  }

  function SetRow(t: Tables, id: OperationId, row: Row): Tables {
    t.(records := t.records[id := row])
  }

  function AdmitStep(t: Tables, now: int, principal: string, mode: Mode, input: Intent, goal: GoalKey,
                     freshId: OperationId, same: Option<OperationId>): (Tables, Outcome)
    requires same.Some? ==> same.value in t.records
  {
    var key := IngressKey(principal, input.source, input.requestId);
    var digest := DigestOf(mode, input);
    if key in t.ingress then
      var prior := t.ingress[key];
      if prior.digest != digest then (t, Err(ConflictingPayload))
      else if prior.op !in t.records then (t, Err(MissingRecord))
      else (t, Ok(Decided(DecisionOf(t, prior.op, false))))
    else if same.Some? && !Deliberate(input.purpose) then
      var joined := t.(ingress := t.ingress[key := IngressRow(digest, same.value)]);
      var logged := Log(joined, same.value, principal, JoinedExisting(input.source, input.requestId), now);
      (logged, Ok(Decided(DecisionOf(t, same.value, false))))
    else if freshId in t.records then
      (t, Err(DuplicateId))
    else
      InsertStep(t, now, principal, mode, input, goal, freshId, same)
  }

  /** New work: its row, its ingress reference and its first event. */
  function InsertStep(t: Tables, now: int, principal: string, mode: Mode, input: Intent, goal: GoalKey,
                      freshId: OperationId, same: Option<OperationId>): (Tables, Outcome)
  {
    var row := Row(principal, goal, input.target.repository, input.mission.task, input.mission.acceptance,
                   input.purpose, mode, input.source, now, Queued, "planned", now, 0, None, None);
    var key := IngressKey(principal, input.source, input.requestId);
    var inserted := SetRow(t, freshId, row).(ingress := t.ingress[key := IngressRow(DigestOf(mode, input), freshId)]);
    var logged := Log(inserted, freshId, principal, Admitted(input.source, input.purpose, same), now);
    (logged, Ok(Decided(DecisionOf(logged, freshId, true))))
  }

  function ClaimStep(t: Tables, now: int, worker: string, leaseMs: int, mode: Mode, next: Option<OperationId>): (Tables, Outcome)
    requires next.Some? ==> next.value in t.records
  {
    if leaseMs < 1000 || leaseMs > 300000 then (t, Err(InvalidLease))
    else if next.None? then (t, Ok(NoWork))
    else
      var id := next.value;
      var row := t.records[id];
      var epoch := row.leaseEpoch + 1;
      var claimed := row.(state := Running, workerId := Some(worker), leaseEpoch := epoch,
                          leaseExpires := Some(now + leaseMs), updatedAt := now);
      (Log(SetRow(t, id, claimed), id, worker, Claimed(epoch, leaseMs), now),
       Ok(Lease(id, epoch, row.task, row.repository, row.acceptance, mode)))
  }

  /** A worker's update of the row it owns, with its event. */
  function Write(t: Tables, now: int, id: OperationId, worker: string, row: Row, kind: Kind): (Tables, Outcome) {
    (Log(SetRow(t, id, row), id, worker, kind, now), Ok(Done))
  }

  /** `INSERT OR IGNORE`, submission by submission. */
  function InsertReceipts(receipts: map<ReceiptKey, Receipt>, id: OperationId, s: seq<Submission>): (r: map<ReceiptKey, Receipt>)
    ensures forall k :: k in receipts ==> k in r && r[k] == receipts[k]
    ensures forall k :: k in r && k !in receipts ==>
      k.op == id && r[k].verifiedAt.None? && exists x :: x in s && k == ReceiptKey(id, x.criterion, x.uri) && r[k].sourceId == x.sourceId
    ensures forall x :: x in s ==> ReceiptKey(id, x.criterion, x.uri) in r
  {
    if s == [] then receipts
    else
      var last := s[|s| - 1];
      var before := InsertReceipts(receipts, id, s[..|s| - 1]);
      var key := ReceiptKey(id, last.criterion, last.uri);
      assert forall x :: x in s <==> x == last || x in s[..|s| - 1];
      if key in before then before else before[key := Receipt(last.sourceId, None, None)]
  }

  function ToReview(row: Row, now: int): Row {
    row.(state := ReviewReady, stage := "review", leaseExpires := None, updatedAt := now)
  }

  function SubmitReviewStep(t: Tables, now: int, id: OperationId, worker: string, epoch: int, s: seq<Submission>): (Tables, Outcome) {
    if !Owns(t, now, id, worker, epoch) then (t, Err(StaleLease))
    else if !ValidSubmissions(t.records[id], s) then (t, Err(InvalidEvidence))
    else
      var filed := t.(receipts := InsertReceipts(t.receipts, id, s));
      Write(filed, now, id, worker, ToReview(t.records[id], now), SubmittedForReview(|s|))
  }

  function AttachStep(t: Tables, now: int, id: OperationId, verifier: string, s: seq<Submission>): (Tables, Outcome) {
    if id !in t.records || t.records[id].state != ReviewReady then (t, Err(NotAwaitingReview))
    else if !ValidSubmissions(t.records[id], s) || |s| > 50 then (t, Err(InvalidEvidence))
    else
      var filed := t.(receipts := InsertReceipts(t.receipts, id, s));
      (Log(filed, id, verifier, EvidenceAttached(|s|), now), Ok(Done))
  }

  predicate Selected(k: ReceiptKey, id: OperationId, criteria: seq<string>, evidence: map<string, seq<string>>) {
    k.op == id && k.criterion in criteria && k.criterion in evidence && k.uri in evidence[k.criterion]
  }

  function MarkVerified(receipts: map<ReceiptKey, Receipt>, keys: set<ReceiptKey>, verifier: string, now: int): map<ReceiptKey, Receipt> {
    map k | k in receipts ::
      if k in keys then receipts[k].(verifiedAt := Some(now), verifier := Some(verifier)) else receipts[k]
  }

  function SelectedKeys(receipts: map<ReceiptKey, Receipt>, id: OperationId, criteria: seq<string>, evidence: map<string, seq<string>>): set<ReceiptKey> {
    set k | k in receipts && Selected(k, id, criteria, evidence)
  }

  function CertifyStep(t: Tables, now: int, id: OperationId, verifier: string, evidence: map<string, seq<string>>): (Tables, Outcome) {
    if id !in t.records || t.records[id].state != ReviewReady then (t, Err(NotAwaitingReview))
    else if !CertifiableFor(t.receipts, id, t.records[id].acceptance, evidence) then (t, Err(NotCertifiable))
    else
      var row := t.records[id];
      var marked := t.(receipts := MarkVerified(t.receipts, SelectedKeys(t.receipts, id, row.acceptance, evidence), verifier, now));
      var done := Log(SetRow(marked, id, row.(state := Satisfied, updatedAt := now)), id, verifier, Verified(row.acceptance), now);
      (done, Ok(Decided(DecisionOf(done, id, false))))
  }

  function ExpireRow(row: Row, now: int): Row {
    row.(state := Uncertain, workerId := None, leaseExpires := None, updatedAt := now)
  }

  /** `reconcileExpired` over the rows it selected. */
  function ExpireAll(t: Tables, now: int, order: seq<OperationId>): (r: Tables)
    requires forall id :: id in order ==> id in t.records
    ensures r.records.Keys == t.records.Keys
  {
    if order == [] then t
    else
      var last := order[|order| - 1];
      assert forall id :: id in order[..|order| - 1] ==> id in order;
      var before := ExpireAll(t, now, order[..|order| - 1]);
      var row := t.records[last];
      Log(SetRow(before, last, ExpireRow(row, now)), last, "broker", LeaseExpired(row.workerId, row.leaseEpoch), now)
  }

  /** One transaction. A thrown error rolls back, so `Err` comes with the tables unchanged. */
  function Apply(t: Tables, now: int, cmd: Command, choice: Choice): (Tables, Outcome)
    requires Allowed(t, now, cmd, choice)
  {
    match cmd
    case Admit(principal, mode, input, freshId) => 
      AdmitStep(t, now, principal, mode, input, GoalKeyOf(principal, input), freshId, choice.pick)
    case Claim(worker, leaseMs, mode) => ClaimStep(t, now, worker, leaseMs, mode, choice.pick)
    case Beat(id, worker, epoch, leaseMs) =>
      if !Owns(t, now, id, worker, epoch) then (t, Err(StaleLease))
      else Write(t, now, id, worker,
                 t.records[id].(leaseExpires := Some(now + leaseMs), updatedAt := now), Heartbeat(epoch, leaseMs))
    case Advance(id, worker, epoch, stage, message) =>
      if !ValidStage(stage) || !ValidReason(message) then (t, Err(InvalidProgress))
      else if !Owns(t, now, id, worker, epoch) then (t, Err(StaleLease))
      else Write(t, now, id, worker, t.records[id].(stage := stage, updatedAt := now), Progress(stage, message))
    case SubmitReview(id, worker, epoch, s) => SubmitReviewStep(t, now, id, worker, epoch, s)
    case MarkUncertain(id, worker, epoch, message) =>
      if !ValidReason(message) then (t, Err(InvalidReason))
      else if !Owns(t, now, id, worker, epoch) then (t, Err(StaleLease))
      else Write(t, now, id, worker,
                 t.records[id].(state := Uncertain, leaseExpires := None, updatedAt := now), OutcomeUncertain(message))
    case ReadyWithoutProof(id, worker, epoch, summary) =>
      if !ValidReason(summary) then (t, Err(InvalidReason))
      else if !Owns(t, now, id, worker, epoch) then (t, Err(StaleLease))
      else Write(t, now, id, worker, ToReview(t.records[id], now), ReviewPendingEvidence(summary))
    case AttachEvidence(id, verifier, s) => AttachStep(t, now, id, verifier, s)
    case Certify(id, verifier, evidence) => CertifyStep(t, now, id, verifier, evidence)
    case ReconcileExpired => (ExpireAll(t, now, choice.order), Ok(Reconciled(|choice.order|)))
  }

  /** `cmd` at time `now` may take the tables from `t` to `u` and answer `r`. */
  ghost predicate Transaction(t: Tables, now: int, cmd: Command, u: Tables, r: Outcome) {
    exists choice :: Allowed(t, now, cmd, choice) && Apply(t, now, cmd, choice) == (u, r)
  }

  lemma Commit(t: Tables, now: int, cmd: Command, choice: Choice, u: Tables, r: Outcome)
    requires Allowed(t, now, cmd, choice) && Apply(t, now, cmd, choice) == (u, r)
    ensures Transaction(t, now, cmd, u, r)
  {}

  lemma CommitAdmit(t: Tables, now: int, principal: string, mode: Mode, input: Intent, freshId: OperationId,
                    same: Option<OperationId>, u: Tables, r: Outcome)
    requires IsLatest(t, principal, GoalKeyOf(principal, input), same)
    requires AdmitStep(t, now, principal, mode, input, GoalKeyOf(principal, input), freshId, same) == (u, r)
    ensures Transaction(t, now, Admit(principal, mode, input, freshId), u, r)
  {
    Commit(t, now, Admit(principal, mode, input, freshId), Choice(same, []), u, r);
  }

  lemma CommitReview(t: Tables, now: int, id: OperationId, worker: string, epoch: int, s: seq<Submission>, u: Tables, r: Outcome)
    requires SubmitReviewStep(t, now, id, worker, epoch, s) == (u, r)
    ensures Transaction(t, now, SubmitReview(id, worker, epoch, s), u, r)
  {
    Commit(t, now, SubmitReview(id, worker, epoch, s), Choice(None, []), u, r);
  }
}
