# Oh-My-PK core logic in Dafny

This project models five parts of the repository and proves what they are for. Each module names the
source lines it follows.

**The delegation ledger and its worker** (`LedgerModel`, `WorkLedgers`, `LedgerRuns`, `LedgerTheorems`,
`LedgerLeases`,
`WorkerProtocol`, `WorkerOutcomes`). The ledger is a work queue with leases, epochs, idempotent admission, an append-only
event log and evidence receipts. Its tables are the fields of a class whose methods are transactions; a
method that throws restores what it had changed. Each method is proved against one step function over the
tables, and the theorems are about every run of such steps with an arbitrary clock, arbitrary callers and
arbitrary fresh ids. Any number of workers, each a state machine, talk to the ledger over a network that
may lose or delay any request or reply, heartbeats included. `LedgerLeases` says exactly which calls a
lease admits, `WorkerOutcomes` what a run returns by what its agent did.

**The function inliner** (`JsSubset`, `JsNames`, `Inversion`, `Inliner`, `InlinerProof`,
`InlinerCapture`, `InlinerDefault`, `InlinerLimits`). A small JavaScript: expressions with calls and
assignments, `!`, `&&`, `||`, comparators, `const`, `let`, `if`, blocks and void helper calls, with
exceptions, temporal dead zones, a store and a trace of effects, over a host whose calls may do anything.
The theorem for strict mode says that replacing the calls of an analyzed helper, in nested blocks too,
leaves what a block does exactly as it was. Its hypotheses are the analysis the script makes, generated
names that neither capture nor are captured, and compared values that are ordered. `InlinerCapture` says
what capture is, exactly, and gives a condition on the helper's names alone that excludes it.
`InlinerDefault` says when default mode is right, with arguments that are evaluated first and arguments
that are written in place. `InlinerLimits` shows that the hypotheses cannot be
dropped.

**The changelog fixer** (`ChangelogText`, `ChangelogDocument`, `ChangelogFix`, `ChangelogItems`,
`ChangelogForms`, `ChangelogValidity`, `ChangelogStability`, `ChangelogOrder`, `ChangelogPromotion`, `ChangelogExact`, `ChangelogGaps`, `ChangelogInput`,
`ChangelogSwallow`, `ChangelogLimits`; `ChangelogLines`, `ChangelogFixer`, `ChangelogEditing`,
`ChangelogRun`; `DiffPromotion`, `DiffReader`; `Lists`, `Items` and `StableSort` are their vocabulary).
The first group specifies parsing, printing and one pass over a document, and proves the round trip, that
no item is lost, that passes settle, exactly when the last two hold, which items are promoted, and the
order a pass leaves. The second group is the fixer as
it runs: numbered lines, index loops, removal by line numbers and a document edited in place, proved to
compute the specified text. The third reads a diff and decides which added bullets may be promoted.

**The release notes** (`ReleaseNotes`, `ReleaseHeadings`, `ReleaseNotesWriter`, `ReleaseNotesOrder`):
version precedence, what counts as a heading, selection, merging and printing of changelog sections, and
reading the printed notes back.

**Workspace selection** (`Workspaces`, `WorkspacePaths`), **the concurrent map** (`ConcurrentMap`) and **the prompt
rewriter** built on it (`PromptRewriter`, `PromptForms`). The map is a transition system of workers that share one
counter; a worker runs without interruption between two awaits.

`Basics`, `Decimals`, `Text` and `Ordering` hold result types, decimal numbers, string trimming and
normalizing, and string order.

## What turned out not to hold as stated

The code is modelled as it is; where a property needs a condition, the condition is proved and the
failing family is shown.

- Flipping a comparison is exact only for ordered operands or equality tests
  (`InlinerLimits.SingleFlipIsExact`, an if-and-only-if); `InlinerLimits.NaNSkipsTail` is a call that
  goes wrong.
- In default mode the guarded path of `buildReplacement` never renames tail locals, so one can capture an
  identifier of a substituted argument (`InlinerLimits.DefaultModeCaptures`); and a variable that is
  written in place is read after the guards, which may have changed it
  (`InlinerLimits.DefaultModeReadsLate`). Where every argument is evaluated first or combines private
  variables that nothing evaluated first assigns, absence of capture is enough
  (`InlinerDefault.DefaultSiteIsExact`), and `InlinerCapture.CaptureFreeExactly` is the if-and-only-if for
  capture.
- `reservedFor` seeds names only from the call-site block, so a generated name can be one of the helper's
  own (`InlinerLimits.GeneratedNamesCanCollide`); `InlinerCapture.SiteClearExactly` is the if-and-only-if
  for a site, `InlinerCapture.StrictInliningByNames` a condition on the helper alone.
- `computeFreeNames` misses a free name that is also declared in a nested block of the helper
  (`InlinerLimits.ComputedFreeNamesExact`, an if-and-only-if), and inlining then goes wrong
  (`InlinerLimits.ShadowCheckMisses`); otherwise its check suffices
  (`InlinerLimits.ScriptChecksSuffice`).
- `normalizeSection` does not compact a body it has merged, so a second pass may still change the text;
  exactly when is `ChangelogInput.SecondPassOnInput`, read off the document as parsed, and
  `ChangelogExact.SecondPassExactly`, read off the first pass's output.
- Text at the top of a body merged under a repeated heading swallows the bullet before it
  (`ChangelogLimits.MergeSwallowsItem`); exactly then do a section's items change
  (`ChangelogSwallow.ItemsKeptExactly`).
- An added diff line whose text starts with `++ b/` is read as a file header
  (`DiffReader.AddedLineIsCounted`, an if-and-only-if).
- `mapConcurrent` reports a missing result exactly when there are items and the concurrency is below one
  (`ConcurrentMap.MissingResultExactly`).
- A leading zero stops `compareVersions` before the later parts are looked at
  (`ReleaseNotes.LeadingZeroHidesPatch`); `ReleaseNotes.CompareExactly` is the if-and-only-if.
- When `fixChangelogContent` has to create the Unreleased section, it inserts it in front of the list
  that it is looping over, so the current section is visited twice; `ChangelogRun.Changelog.PromoteItems`
  proves the second visit harmless.


## Model

| member | source | states |
|---|---|---|
| WorkLedgers.WorkLedger.constructor | extensions/ompk-delegations/ledger.ts:69-103 | A new ledger's tables are empty. |
| WorkLedgers.WorkLedger.Admit | extensions/ompk-delegations/ledger.ts:163-194 | Replays, joins or creates: one transaction whose reply and new tables are those of the admission step; a refused payload leaves the tables alone. |
| WorkLedgers.WorkLedger.Claim | extensions/ompk-delegations/ledger.ts:200-211 | Hands out the oldest queued record of the mode with its lease epoch raised, the lease ending `leaseMs` after the claim, or nothing. |
| WorkLedgers.WorkLedger.Beat | extensions/ompk-delegations/ledger.ts:218-226 | Extends a lease only for its present owner and epoch. |
| WorkLedgers.WorkLedger.Advance | extensions/ompk-delegations/ledger.ts:227-235 | Sets the stage only for the owner of an unexpired lease. |
| WorkLedgers.WorkLedger.SubmitReview | extensions/ompk-delegations/ledger.ts:236-252 | Files receipts and ends the lease, or changes nothing. |
| WorkLedgers.WorkLedger.MarkUncertain | extensions/ompk-delegations/ledger.ts:253-260 | Ends the lease in the uncertain state. |
| WorkLedgers.WorkLedger.ReadyWithoutProof | extensions/ompk-delegations/ledger.ts:261-268 | Ends the lease in the review state without receipts. |
| WorkLedgers.WorkLedger.AttachEvidence | extensions/ompk-delegations/ledger.ts:269-282 | Files receipts on a record awaiting review; earlier receipts with the same key win. |
| WorkLedgers.WorkLedger.Certify | extensions/ompk-delegations/ledger.ts:283-303 | Marks receipts criterion by criterion; a missing one undoes the marks already made. |
| WorkLedgers.WorkLedger.ReconcileExpired | extensions/ompk-delegations/ledger.ts:304-314 | Moves every running record with a passed deadline to uncertain and counts them. |
| WorkLedgers.WorkLedger.Get | extensions/ompk-delegations/ledger.ts:195-199 | Answers only the principal that owns the record. |
| WorkLedgers.WorkLedger.Inspect | extensions/ompk-delegations/ledger.ts:141-156 | Looks a goal up without changing the tables. |
| WorkLedgers.WorkLedger.FindLatest | extensions/ompk-delegations/ledger.ts:172-173 | Finds a newest record of the goal exactly when one exists. |
| WorkLedgers.WorkLedger.FindNext | extensions/ompk-delegations/ledger.ts:203-204 | Finds the first queued record of a mode by creation time and id exactly when one exists. |
| WorkLedgers.WorkLedger.SelectExpired | extensions/ompk-delegations/ledger.ts:306-307 | Lists each running record with a passed deadline once, and nothing else. |
| LedgerRuns.ApplyKeeps | extensions/ompk-delegations/ledger.ts:163-314 | Every transaction keeps the tables' invariant, moves each record along at most one edge, and takes nothing back. |
| LedgerRuns.RunKeepsInv | extensions/ompk-delegations/ledger.ts:163-314 | The invariant holds at every moment of every run. |
| LedgerRuns.RunEvolves | extensions/ompk-delegations/ledger.ts:163-314 | Between two moments of a run records, ingress keys, events and verified receipts only accumulate. |
| LedgerTheorems.ErrorsRollBack | extensions/ompk-delegations/ledger.ts:163-314 | A call that throws leaves every table as it was. |
| LedgerTheorems.EventLogComplete | extensions/ompk-delegations/ledger.ts:112-118 | Folding an operation's events in order gives its state, stage, lease epoch and worker back, in every reachable ledger. |
| LedgerTheorems.RecordStates | extensions/ompk-delegations/ledger.ts:200-211 | Records are queued, running, review-ready, uncertain or satisfied; the epoch is 0 while queued and 1 afterwards, and counts the claims. |
| LedgerTheorems.RecordsMoveForward | extensions/ompk-delegations/ledger.ts:200-267 | Over a run a record only moves forward, never back to queued; uncertain and satisfied records never change again. |
| LedgerTheorems.StepsAreEdges | extensions/ompk-delegations/ledger.ts:200-314 | One step moves a record along at most one edge of queued, running, then uncertain or review-ready then satisfied. |
| LedgerTheorems.LeasedAtMostOnce | extensions/ompk-delegations/ledger.ts:200-211 | Over a whole run no operation is leased twice. |
| LedgerTheorems.CompletionNeedsEvidence | extensions/ompk-delegations/ledger.ts:236-303 | A satisfied record has a verified receipt filed under each of its criteria; verified receipts exist only on satisfied records. |
| LedgerTheorems.DecisionIsExact | extensions/ompk-delegations/ledger.ts:124-140 | The decision reads satisfied exactly for satisfied records, running for queued and running ones, blocked for uncertain ones, partial for those awaiting review. |
| LedgerTheorems.CertifyOutcome | extensions/ompk-delegations/ledger.ts:283-303 | Certification succeeds exactly when each criterion is given receipts that were all filed for it; otherwise nothing is marked. |
| LedgerTheorems.ExpiredLeaseIsFenced | extensions/ompk-delegations/ledger.ts:212-226 | After a deadline passes no worker call on the record succeeds, and it leaves running only through reconciliation, to uncertain. |
| LedgerTheorems.ExpiredRowOverRun | extensions/ompk-delegations/ledger.ts:212-226 | Until reconciled, the row of an expired lease does not change at all. |
| LedgerTheorems.ReconcileIsExact | extensions/ompk-delegations/ledger.ts:304-314 | Reconciling at a time expires exactly the records whose deadline has passed, counts them, and leaves none running past its deadline. |
| LedgerTheorems.GoalKeyMeaning | extensions/ompk-delegations/ledger.ts:157-162 | Goal keys agree exactly when principal, caseless repository, words of the task and multiset of normalized criteria agree. |
| LedgerTheorems.IngressIsPermanent | extensions/ompk-delegations/ledger.ts:163-194 | An idempotency key maps to one operation for the rest of the run. |
| LedgerTheorems.ReplayedAdmission | extensions/ompk-delegations/ledger.ts:166-175 | Repeating a request changes no table: the same payload is answered with the same operation, another payload is refused. |
| LedgerTheorems.AdmissionRecords | extensions/ompk-delegations/ledger.ts:163-194 | A successful admission binds its key to the operation it names; a known key and a goal that is joined add no record, any other admission adds one, queued, with the work of the request. |
| LedgerTheorems.OneExecutionPerGoal | extensions/ompk-delegations/ledger.ts:176-194 | At any moment a goal has at most one execute record. |
| LedgerLeases.AcceptedExactly | extensions/ompk-delegations/ledger.ts:212-268 | A worker's call succeeds exactly when its arguments are proper and it owns the lease at that time. |
| LedgerLeases.LeaseAdmitsItsOwner | extensions/ompk-delegations/ledger.ts:200-268 | Over every run: a lease names an operation that an earlier request admitted, with that request's task, repository, criteria and mode; after it exactly the proper calls under its worker and epoch succeed that come before its deadline, `leaseMs` after the claim or the last heartbeat, unless a step has ended it. |
| LedgerLeases.LeaseLasts | extensions/ompk-delegations/ledger.ts:200-226 | Until the row is written again, a proper call of the owner succeeds exactly when it comes less than `leaseMs` after the claim or the heartbeat. |
| Text.NormalizeMeaning | extensions/ompk-delegations/ledger.ts:157-162 | Two texts normalize alike exactly when their words agree without case. |
| Ordering.SortEqual | extensions/ompk-delegations/ledger.ts:157-162 | Sorting forgets the order of the criteria and nothing else. |
| WorkerProtocol.StepKeepsInv | extensions/ompk-delegations/worker.ts:64-124 | Every step of any worker, the network or another party keeps what the ledger, the requests in flight and the workers know of each other. |
| WorkerProtocol.BehaviourKeepsInv | extensions/ompk-delegations/worker.ts:64-124 | So does every behaviour of any number of workers, with requests and replies lost or late. |
| WorkerProtocol.ReturnIsFinal | extensions/ompk-delegations/worker.ts:64-124 | Once `runOnce` has returned its result stays. |
| WorkerProtocol.WorkerAgreesWithLedger | extensions/ompk-delegations/worker.ts:64-124 | After any worker returned review_ready the record is review-ready or satisfied and never uncertain; after uncertain it is never review-ready or satisfied, whatever the other workers do. |
| WorkerProtocol.WorkersApart | extensions/ompk-delegations/ledger.ts:200-211 | No two workers ever hold the same operation, nor have returned from it. |
| WorkerProtocol.UncertainRunSettles | extensions/ompk-delegations/worker.ts:89-118 | After an uncertain return, one reconciliation past the deadline leaves the record uncertain. |
| WorkerOutcomes.ResultIsEarned | extensions/ompk-delegations/worker.ts:78-123 | A run that ends with a task returns review_ready exactly when its agent exited with 0, and uncertain exactly when the repository was not available, the agent crashed or exited with another code, or a heartbeat failed while it was at work. |
| WorkerOutcomes.ExitCodeDecides | extensions/ompk-delegations/worker.ts:116-123 | Once the exit code is known the run returns review_ready if and only if it is 0, and otherwise nothing but uncertain. |
| WorkerOutcomes.FailureEndsUncertain | extensions/ompk-delegations/worker.ts:81-111 | After a failure the run returns uncertain or throws; a crash and a failed heartbeat never make it throw. |
| WorkerOutcomes.ReadyNeedsSuccess | extensions/ompk-delegations/worker.ts:118-122 | A request for review is on its way, however late, only if the agent of the worker it is from exited with 0. |
| WorkerOutcomes.ModeIsRespected | extensions/ompk-delegations/worker.ts:79-79 | In every behaviour a worker is only ever at work on operations of its own identity mode. |
| Inversion.ParseInvertsPrint | scripts/inline-functions.ts:128-131 | What is printed with parentheses by precedence level reads back as the same tree, at every depth. |
| Inversion.NegatePrints | scripts/inline-functions.ts:315-345 | `negate` prints a tree at the level it reports. |
| Inversion.ConditionParses | scripts/inline-functions.ts:347-356 | The condition built from guard texts reads back as the conjunction of their complements. |
| Inversion.ComplementMeans | scripts/inline-functions.ts:315-345 | The complement evaluates the same things in the same order and has the opposite truth, when the compared values are ordered. |
| Inversion.FlipIsExact | scripts/inline-functions.ts:138-147 | Each flipped comparator is the negation of the original exactly on ordered operands, or when it is an equality. |
| Inversion.GuardInversion | scripts/inline-functions.ts:352-356 | Early returns followed by the tail, and the tail under the inverted condition, end alike: same effects in the same order, same store, same exception. |
| InlinerLimits.SingleFlipIsExact | scripts/inline-functions.ts:138-147 | The flip of a single comparison is right exactly when the two values are ordered or the comparator tests equality. |
| InlinerLimits.NaNSkipsTail | scripts/inline-functions.ts:138-147 | With NaN a guard lets the helper go on while the inverted condition skips the tail. |
| Decimals.DecimalInjective | scripts/inline-functions.ts:501-507 | Different counters print differently. |
| Inliner.FreshName | scripts/inline-functions.ts:501-507 | The name found is the first candidate not taken, is then taken, and was not before. |
| Inliner.BuildReplacement | scripts/inline-functions.ts:837-900 | The prefix, parameter texts and tail of one call site, argument by argument, are those of the plan; which arguments it evaluates first is `RunsFirstExactly`. |
| Inliner.RenameCollidingLocals | scripts/inline-functions.ts:793-823 | Exactly the tail locals that collide are renamed, each to a name not taken before. |
| JsNames.SimulateExpr | scripts/inline-functions.ts:294-301 | Substituting names preserves what an expression does, when nothing is captured. |
| JsNames.SimulateBlock | scripts/inline-functions.ts:294-301 | And what a block does. |
| InlinerProof.SiteRuns | scripts/inline-functions.ts:837-900 | Hoisted prefix, guard condition and tail of one site give the store, effects and outcome of evaluating the arguments left to right and calling the helper. |
| InlinerProof.ItemsRun | scripts/inline-functions.ts:935-947 | All call sites of a block replaced, the block still runs as before. |
| InlinerProof.StrictInliningIsExact | scripts/inline-functions.ts:837-947 | Strict-mode inlining of every call of an analyzed helper, in nested blocks too, leaves what a block does exactly as it was, provided no generated name captures or is captured and the compared values are ordered. |
| InlinerProof.WeakenItems | scripts/inline-functions.ts:772-785 | A nested block runs alike beside the new names of the block around it, which it does not mention. |
| InlinerCapture.CaptureFreeExactly | scripts/inline-functions.ts:883-900 | Substituting into a block captures nothing exactly when every name keeps as many free occurrences as the replacements of the free names of the block bring. |
| InlinerCapture.SiteClearExactly | scripts/inline-functions.ts:837-900 | At one site no generated name captures or is captured exactly when the inserted code binds no free name of the helper and loses no free occurrence of its tail. |
| InlinerCapture.GeneratedShape | scripts/inline-functions.ts:501-507 | A generated name is a temporary's base, or a base or tail local with an underscore and a number. |
| InlinerCapture.StrictInliningByNames | scripts/inline-functions.ts:772-823 | A helper none of whose names looks generated is inlined exactly in any block. |
| InlinerDefault.RunsFirstExactly | scripts/inline-functions.ts:852-881 | Default mode evaluates an argument before the body exactly when it calls or assigns somewhere, or combines values and is used more than once. |
| InlinerDefault.LatePrefix | scripts/inline-functions.ts:846-881 | The hoisted prefix does what evaluating the arguments does; then every replacement, a temporary or an argument written in place, holds the value its parameter is bound to. |
| InlinerDefault.DefaultSiteIsExact | scripts/inline-functions.ts:837-900 | Default-mode inlining of a guarded helper is exact at a call each of whose arguments calls, assigns, is evaluated first, or combines private variables that no argument evaluated first assigns, when the tail captures nothing of what replaces the parameters, temporaries included. |
| InlinerDefault.DefaultSiteByNames | scripts/inline-functions.ts:837-900 | In particular when no block of the tail declares a temporary of the site or a name of an argument written in place. |
| InlinerDefault.DefaultCaptureExactly | scripts/inline-functions.ts:890-896 | The capture condition of such a site holds exactly when no free occurrence in the tail is lost. |
| InlinerDefault.DefaultSpliceIsExact | scripts/inline-functions.ts:793-823 | Default-mode inlining of a helper without guards, at such a call, does what the call does and changes only the new names of the site besides. |
| InlinerLimits.ScriptChecksSuffice | scripts/inline-functions.ts:490-499 | The shadow check on the computed free names suffices for exact inlining when no free name of the helper is declared in a nested block. |
| InlinerLimits.ShadowCheckMisses | scripts/inline-functions.ts:419-452 | A name that is free in the helper and declared in a nested block passes the shadow check; the inlined code then reads the caller's variable of that name. |
| InlinerProof.PrefixRuns | scripts/inline-functions.ts:846-881 | The hoisted arguments are evaluated once each, in order, with the values the call would have had. |
| InlinerLimits.ComputedFreeNamesExact | scripts/inline-functions.ts:419-452 | The computed free names are the real ones exactly when no free name is also declared in a nested block. |
| InlinerLimits.DefaultModeCaptures | scripts/inline-functions.ts:890-896 | In default mode a guarded helper's tail local captures an identifier of a substituted argument, and the argument's value is lost. |
| InlinerLimits.DefaultModeReadsLate | scripts/inline-functions.ts:865-881 | In default mode a variable that a guard's call assigns is read after the guard: the helper gets the value before, the inlined code the one after. |
| InlinerLimits.GeneratedNamesCanCollide | scripts/inline-functions.ts:772-785 | A generated name can collide with one of the helper's own. |
| Workspaces.OrderWorkspaces | scripts/run-ts-check.ts:90-110 | Each selected workspace once; dependencies come first exactly when the selection has no cycle. |
| Workspaces.Orderer.Visit | scripts/run-ts-check.ts:95-107 | Depth-first visit: terminates on cycles, appends each name once, after the dependencies not being visited. |
| Workspaces.DependenciesFirstImpliesAcyclic | scripts/run-ts-check.ts:90-110 | An order with dependencies first can exist only without cycles. |
| Workspaces.GrowAffected | scripts/run-ts-check.ts:52-62 | The fixpoint holds exactly the names with a chain of dependencies to a seed. |
| Workspaces.GrowOnce | scripts/run-ts-check.ts:55-61 | One round adds only dependents, and reports no change only when closed. |
| Workspaces.SelectAffectedWorkspaceNames | scripts/run-ts-check.ts:25-64 | Everything when a change forces it, otherwise exactly the owners of changed paths and their dependents, ordered. |
| WorkspacePaths.DirExactly | scripts/run-ts-check.ts:81-88 | A path selects a directory exactly when it is that directory or in it, and the directory is `packages/` with a name without slashes, or `python/robomp/web`. |
| WorkspacePaths.ChangeAffectsDependents | scripts/run-ts-check.ts:32-64 | A change in the directory of a workspace affects that workspace and everything that depends on it. |
| WorkspacePaths.OnlyDependentsAffected | scripts/run-ts-check.ts:32-64 | Where no change forces all workspaces, only such changes affect one. |
| ChangelogText.HeadingReadsBack | scripts/fix-changelogs.ts:112-115 | A printed subsection heading reads back as its title. |
| ChangelogForms.ReleaseHeadingExactly | scripts/fix-changelogs.ts:100-111 | A line is a release heading with a title exactly when it is two hashes, the title in brackets, and anything. |
| ChangelogForms.SubsectionHeadingExactly | scripts/fix-changelogs.ts:104-115 | A line is a subsection heading with a title exactly when it is three hashes, white space, the title, white space. |
| ChangelogForms.BulletExactly | scripts/fix-changelogs.ts:117-119 | A line is a bullet exactly when it is white space, a dash and a space, and anything. |
| ChangelogForms.BlankExactly | scripts/fix-changelogs.ts:202-208 | A line is blank exactly when it is all white space. |
| ChangelogText.ContentReadsBack | scripts/fix-changelogs.ts:125-131 | Joined lines with a final newline split back into the lines. |
| ChangelogText.SplitIsClean | scripts/fix-changelogs.ts:125-131 | Split lines hold no line break of either kind. |
| ChangelogDocument.ParseOk | scripts/fix-changelogs.ts:137-200 | Every text parses to a document whose lines hide no heading. |
| ChangelogDocument.ParseAfterRender | scripts/fix-changelogs.ts:502-529 | Parsing a printed document gives it back up to edge blank lines and blank subsections. |
| ChangelogDocument.RenderTrimmed | scripts/fix-changelogs.ts:502-529 | Printing sees a document only up to those. |
| ChangelogDocument.RenderAfterParseSettles | scripts/fix-changelogs.ts:137-529 | Printing what was parsed is idempotent on every text. |
| Items.ItemsOfJoin | scripts/fix-changelogs.ts:234-264 | The items of two joined bodies are those of the first, then those of the second, when nothing can fall under the first's last item. |
| Items.CompactItems | scripts/fix-changelogs.ts:359-377 | Compaction keeps every item. |
| Items.CompactTwice | scripts/fix-changelogs.ts:359-377 | Compaction is idempotent. |
| ChangelogFix.KeyIsFaithful | scripts/fix-changelogs.ts:276-278 | Two items have the same key exactly when they are the same lines. |
| ChangelogFix.LineNumbersAreReal | scripts/fix-changelogs.ts:137-200 | The line numbers that promotion goes by are the lines' numbers in the text. |
| ChangelogItems.AppendKeepsBullets | scripts/fix-changelogs.ts:218-232 | Appending keeps the items of both bodies unless the second starts with text below an item of the first. |
| ChangelogItems.DropKeepsBullets | scripts/fix-changelogs.ts:310-329 | Dropping duplicates of released items loses no item of the document. |
| ChangelogItems.PromoteKeepsBullets | scripts/fix-changelogs.ts:542-561 | Promotion loses no item and makes none. |
| ChangelogPromotion.PromotionIsExact | scripts/fix-changelogs.ts:542-561 | The first Unreleased section gains exactly the released items whose first line is promotable, or one with just those is put in front; every released section keeps exactly its other items. |
| ChangelogPromotion.ItemNumbersAreReal | scripts/fix-changelogs.ts:137-200 | The number that promotion goes by is the line of the text where the item's first line stands. |
| ChangelogItems.NormalizeKeepsBullets | scripts/fix-changelogs.ts:379-419 | Normalizing keeps a section's items when merged bodies start with an item. |
| ChangelogItems.NoItemLost | scripts/fix-changelogs.ts:531-580 | A pass keeps the set of items of a document, for any promotable lines, when merged bodies start with an item. |
| ChangelogValidity.FixOk | scripts/fix-changelogs.ts:531-580 | A pass keeps a document printable and readable. |
| ChangelogValidity.NoItemLostInText | scripts/fix-changelogs.ts:531-580 | The items read from the fixed text are those read from the text. |
| ChangelogStability.NumericIsConsistent | scripts/fix-changelogs.ts:438-447 | Numeric version titles are totally ordered by the comparison. |
| ChangelogStability.CompareTransitive | scripts/fix-changelogs.ts:438-447 | The comparison of numeric versions is transitive, with missing parts as zero. |
| ChangelogOrder.CompareIsPrecedence | scripts/fix-changelogs.ts:438-447 | Between numeric titles the comparison is positive exactly when, at the first place where they differ, the first has the smaller number, missing places being zero. |
| ChangelogOrder.VersionIsRead | scripts/fix-changelogs.ts:438-441 | A heading `## [X.Y.Z]`, whatever follows, has that title, and its three numbers are those of X, Y and Z. |
| ChangelogOrder.FixOrders | scripts/fix-changelogs.ts:449-455 | A pass keeps the headings, an Unreleased one in front of a document without one aside; with numeric titles no released section precedes a later one, and no Unreleased section stands after a released one. |
| ChangelogOrder.FixedTextIsOrdered | scripts/fix-changelogs.ts:531-580 | The same of the fixed text as it reads back. |
| ChangelogOrder.SortKeepsOrder | scripts/fix-changelogs.ts:449-455 | Sections of one title stay in the order they had. |
| ChangelogOrder.NormalizeOrdersTitles | scripts/fix-changelogs.ts:403-419 | Normalizing puts the subsections of an Unreleased section in their fixed order, others after them in the order they had; a released section keeps its own order. |
| ChangelogOrder.FixedTextOrdersTitles | scripts/fix-changelogs.ts:531-580 | So they read back from the fixed text, blank subsections aside. |
| ChangelogStability.PassFixes | scripts/fix-changelogs.ts:531-580 | A pass over a document without repeated titles leaves nothing to drop, merge or move. |
| ChangelogStability.SecondPassChangesNothing | scripts/fix-changelogs.ts:531-580 | A second pass changes nothing when no section repeats the title of a nonblank subsection. |
| ChangelogStability.ThirdPassChangesNothing | scripts/fix-changelogs.ts:531-580 | A third pass never changes what the second wrote. |
| ChangelogLimits.NormalizeTwiceExactly | scripts/fix-changelogs.ts:397-401 | Normalizing again changes nothing exactly when every merged body is compact. |
| ChangelogExact.SecondPassExactly | scripts/fix-changelogs.ts:531-580 | A second pass changes nothing exactly when the first left nothing to drop and every body compact. |
| ChangelogExact.SettledExactly | scripts/fix-changelogs.ts:379-419 | Normalizing a section that has no repeats changes nothing exactly when each body is compact. |
| ChangelogGaps.AppendSettles | scripts/fix-changelogs.ts:218-232 | Appending a compacted body to a merged one keeps it compact exactly when there is no separator between two items and no gap of its own. |
| ChangelogGaps.NormalizedSettles | scripts/fix-changelogs.ts:379-419 | Normalizing leaves every body compact exactly when, one after the other, the bodies under each title join tight. |
| ChangelogInput.NormalizedItemsAre | scripts/fix-changelogs.ts:379-419 | The items of a normalized section are those of its bodies laid end to end under each title. |
| ChangelogInput.NormalizeTwiceOnInput | scripts/fix-changelogs.ts:397-401 | Normalizing a section again changes nothing exactly when its bodies join tight. |
| ChangelogInput.SecondPassOnInput | scripts/fix-changelogs.ts:531-580 | A second pass changes nothing exactly when, in the document as read and cleared of released duplicates, bodies join tight and joining them makes nothing new to drop. |
| ChangelogLimits.MergeLeavesGap | scripts/fix-changelogs.ts:397-401 | A two-line bullet followed by a bullet under a repeated heading: the first pass leaves an empty line that the second removes. |
| ChangelogSwallow.AppendSize | scripts/fix-changelogs.ts:218-232 | Appending adds up the lines of both bodies' items, and more exactly when the second starts with text below an item of the first. |
| ChangelogSwallow.ItemsKeptExactly | scripts/fix-changelogs.ts:379-419 | Normalizing a section keeps every item as often as it stood there exactly when no body merged below an item starts with text. |
| ChangelogSwallow.AllItemsKeptExactly | scripts/fix-changelogs.ts:563-569 | The same for all sections of a document together. |
| ChangelogLimits.MergeSwallowsItem | scripts/fix-changelogs.ts:218-232 | Text that starts a merged body becomes part of the bullet before it, and that bullet is lost. |
| ChangelogLines.TrimBlankLines | scripts/fix-changelogs.ts:202-208 | The two loops strip exactly the blank edges. |
| ChangelogLines.ParseItems | scripts/fix-changelogs.ts:234-264 | The scan yields one item for each chunk, with its first and last number and its trimmed lines. |
| ChangelogLines.LineRangeSet | scripts/fix-changelogs.ts:266-274 | Exactly the numbers in some item's range. |
| ChangelogLines.RemoveItems | scripts/fix-changelogs.ts:322-326 | Filtering by line numbers removes exactly the chosen items. |
| ChangelogFixer.CompactAdjacentListSpacing | scripts/fix-changelogs.ts:359-377 | The visible-line comparison decides as the specification does. |
| ChangelogFixer.SameVisibleLines | scripts/fix-changelogs.ts:368-375 | The visible lines agree exactly when the trimmed body starts with an item. |
| ChangelogFixer.AppendSubsectionLines | scripts/fix-changelogs.ts:218-232 | Appends with a separator except between bullets. |
| ChangelogFixer.Normalize | scripts/fix-changelogs.ts:379-419 | The loop over a section with its title table computes the merge of its subsections, ordered when Unreleased. |
| ChangelogFixer.ParseReleaseSection | scripts/fix-changelogs.ts:168-200 | The section's parse, each line with its number. |
| ChangelogEditing.PromoteFrom | scripts/fix-changelogs.ts:546-550 | Takes exactly the items whose first line is promotable. |
| ChangelogEditing.PromoteFromSection | scripts/fix-changelogs.ts:542-561 | Visits the subsections of a section, handing items to the Unreleased one; a second visit changes nothing. |
| ChangelogEditing.SubsectionHasItem | scripts/fix-changelogs.ts:280-287 | Whether the body has that item already. |
| ChangelogEditing.CollectReleasedItemKeys | scripts/fix-changelogs.ts:289-301 | Exactly the items of released sections. |
| ChangelogRun.Changelog.FromText | scripts/fix-changelogs.ts:137-166 | Reading a text: its parse, every line numbered as in the text. |
| ChangelogRun.Changelog.DropUnreleasedDuplicatesOfReleased | scripts/fix-changelogs.ts:310-329 | Removes from the first Unreleased section exactly the items released or historical. |
| ChangelogRun.Changelog.PromoteItems | scripts/fix-changelogs.ts:542-561 | Promotion in place; when the Unreleased section is put in front during the loop the current section is visited twice, to no effect. |
| ChangelogRun.Changelog.NormalizeAll | scripts/fix-changelogs.ts:563-569 | Every section normalized in its place. |
| ChangelogRun.Changelog.SortReleaseSections | scripts/fix-changelogs.ts:449-455 | Sorts as the specification does, whose order is `FixOrders`: Unreleased sections first, the others newest first. |
| ChangelogRun.Changelog.Print | scripts/fix-changelogs.ts:502-529 | The printed text, trailing empty lines popped. |
| ChangelogRun.FixChangelogContent | scripts/fix-changelogs.ts:531-580 | The whole pass, in place, computes the fixed text of the specification, and the text reads back with its newest release first and the Unreleased subsections in their fixed order. |
| DiffPromotion.PairsExactly | scripts/fix-changelogs.ts:656-676 | For every file and bullet text exactly min(added, removed) occurrences are paired on each side. |
| DiffPromotion.PromotesExactly | scripts/fix-changelogs.ts:678-704 | A hunk promotes its unpaired additions in excess of its unpaired removals, none if it adds a release heading. |
| DiffPromotion.GroupByItem | scripts/fix-changelogs.ts:656-665 | The table lists each text's removals in order. |
| DiffPromotion.Pair | scripts/fix-changelogs.ts:667-676 | Taking the first free removal pairs the k-th addition of a text with its k-th removal. |
| DiffPromotion.CollectPromotable | scripts/fix-changelogs.ts:656-705 | The counting loops list exactly the promoted additions. |
| DiffReader.DiffReads | scripts/fix-changelogs.ts:593-654 | Reading a well-formed diff, deleted files included, finds exactly its added bullets, in order, with hunk and new line number. |
| DiffReader.PromotedLinesAreReal | scripts/fix-changelogs.ts:593-705 | On a diff that agrees with the new files, every promoted number is the line where the promoted bullet, with its own text, stands in the new file. |
| DiffReader.AddedLineIsCounted | scripts/fix-changelogs.ts:601-637 | An added line is counted exactly if its text does not start with `++ b/`; such a line switches the file. |
| DiffReader.CollectPromotableAddedItemLines | scripts/fix-changelogs.ts:593-705 | The reading loop and the counting together list exactly the promoted lines. |
| ConcurrentMap.StepKeepsInv | scripts/rewrite-system-prompt.ts:236-253 | Each step of a worker keeps: calls begin in input order, each is awaited by one worker or settled once, results stand exactly for settled calls. |
| ConcurrentMap.EachCallOnce | scripts/rewrite-system-prompt.ts:242-250 | At every moment no call has begun twice, settled twice, or settled before it began. |
| ConcurrentMap.AtMostWidthInFlight | scripts/rewrite-system-prompt.ts:242-250 | At every moment at most `width` calls are in flight. |
| ConcurrentMap.ConcurrentIsSequential | scripts/ci-release-publish.ts:189-212 | Any finished interleaving with a worker gives the values in input order, or a rejection exactly when some call rejects. |
| ConcurrentMap.MissingResultExactly | scripts/ci-release-publish.ts:208-211 | The missing-result error appears exactly when there are items and the concurrency is below one. |
| ConcurrentMap.FreshRunsEnd | scripts/ci-release-publish.ts:195-207 | No interleaving has more than two steps for each item and one for each worker. |
| ConcurrentMap.UnfinishedCanMove | scripts/ci-release-publish.ts:195-207 | An unfinished pool always has a worker that can move. |
| PromptRewriter.PeelLossless | scripts/rewrite-system-prompt.ts:95-125 | Prefix, core and suffix put together are the line. |
| PromptRewriter.PeelLine | scripts/rewrite-system-prompt.ts:103-125 | The peeling loops compute that split. |
| PromptForms.PeelsItem | scripts/rewrite-system-prompt.ts:103-125 | A list item that does not end in braces is peeled of its indentation, its mark and the space after it, and of nothing else. |
| PromptForms.TokenExactly | scripts/rewrite-system-prompt.ts:106-116 | A block token is white space, two braces, anything without a closing brace, two braces, white space. |
| PromptRewriter.BlockSkipMask | scripts/rewrite-system-prompt.ts:176-208 | Marks a closed frontmatter block and everything in fenced blocks, fences included. |
| PromptForms.MaskIsBlocks | scripts/rewrite-system-prompt.ts:194-207 | The fence mask marks blocks one after the other, each from a fence to the next of the same character or to the end, with no fence outside them. |
| PromptForms.SkippedExactly | scripts/rewrite-system-prompt.ts:176-208 | A line is skipped exactly when it is in the frontmatter or in a fenced block of what follows it. |
| PromptForms.FrontMatterExactly | scripts/rewrite-system-prompt.ts:179-193 | The frontmatter runs from a rule on the first line to the next rule; without a closing rule there is none. |
| PromptForms.FenceExactly | scripts/rewrite-system-prompt.ts:196-197 | A line is a fence exactly when it is white space, three backquotes or three tildes, and anything. |
| PromptForms.RuleExactly | scripts/rewrite-system-prompt.ts:180-183 | A line is a rule exactly when it is three dashes with white space around them. |
| PromptRewriter.PlanRewrite | scripts/rewrite-system-prompt.ts:211-225 | Plans exactly the prose lines, in order. |
| PromptRewriter.ProseFromMember | scripts/rewrite-system-prompt.ts:211-225 | A line is planned exactly when it is prose. |
| PromptRewriter.GroupsPartition | scripts/rewrite-system-prompt.ts:228-233 | Groups keep every item in order; all but the last have the step size. |
| PromptRewriter.Chunk | scripts/rewrite-system-prompt.ts:228-233 | The slicing loop computes the groups. |
| PromptRewriter.PreservesTokens | scripts/rewrite-system-prompt.ts:159-166 | True exactly when every token occurs as often as it did. |
| PromptRewriter.AcceptRewrites | scripts/rewrite-system-prompt.ts:395-454 | Whatever the replies, an item gets the first text that keeps all its tokens, and nothing if there is none. |
| PromptRewriter.AnyInterleavingResolves | scripts/rewrite-system-prompt.ts:288-307 | However the workers interleave, the groups come back in order, each resolved with its own reply. |
| PromptRewriter.RewriteKeepsTheRest | scripts/rewrite-system-prompt.ts:277-330 | A line changes only if it is prose and has a reply, and then only between its prefix and suffix. |
| PromptRewriter.AllFailedIsIdentity | scripts/rewrite-system-prompt.ts:277-330 | When every call fails the file comes back as it was. |
| PromptRewriter.RewriteKeepsTokens | scripts/rewrite-system-prompt.ts:277-454 | With the model's replies every changed line still has all fragile tokens of its core. |
| ReleaseNotes.CompareIsPrecedence | scripts/ci-release-notes.ts:41-54 | Between versions without leading zeros the comparison is exactly numeric precedence. |
| ReleaseNotes.CompareExactly | scripts/ci-release-notes.ts:41-54 | Two strings that read as versions compare by numeric precedence, both ways, exactly when no number spelled in two ways hides a difference behind it. |
| ReleaseNotes.VersionReadsBack | scripts/ci-release-notes.ts:42-50 | Three runs of digits joined by dots read as that version, leading zeros included. |
| ReleaseNotes.LeadingZeroHidesPatch | scripts/ci-release-notes.ts:51-53 | 1.02.3 precedes 1.2.4, and the comparison calls them equal. |
| ReleaseHeadings.HeadingReadsBack | scripts/ci-release-notes.ts:79-84 | `## [X.Y.Z]` and anything reads back as the version X.Y.Z. |
| ReleaseHeadings.OpensExactly | scripts/ci-release-notes.ts:79-84 | A line opens the section of a version exactly when it is such a heading of it. |
| ReleaseHeadings.SpansAreOpened | scripts/ci-release-notes.ts:70-89 | The spans are, in order, exactly those of the lines that open a version, each with the lines up to the next line that starts with `## [`. |
| ReleaseHeadings.CategoryExactly | scripts/ci-release-notes.ts:133-139 | A line names a category exactly when it is `### `, the name, and white space. |
| ReleaseHeadings.EntriesAreFiled | scripts/ci-release-notes.ts:112-147 | The entries of a body are, in order, exactly its nonblank lines below a category heading, each under the last one before it. |
| ReleaseHeadings.RangeMeans | scripts/ci-release-notes.ts:98-105 | Between versions without leading zeros the range is: above the floor and not above the target; without a floor the target alone. |
| ReleaseNotes.SelectedIsDescending | scripts/ci-release-notes.ts:98-105 | The selected spans are those in range, none before a newer one. |
| ReleaseNotes.EachLineOnce | scripts/ci-release-notes.ts:108-147 | Each nonblank categorized line in range is kept exactly once: its first occurrence, newest version first. |
| ReleaseNotes.MergingComposes | scripts/ci-release-notes.ts:97-147 | The notes of (floor, target] are those of (mid, target] followed by what is new in (floor, mid]; their lines are the union. |
| ReleaseNotesWriter.CategoriesConsistent | scripts/ci-release-notes.ts:151-158 | Known categories in fixed order, then the others as they collate, is a total order. |
| ReleaseNotesWriter.EnumerateVersions | scripts/ci-release-notes.ts:70-89 | The index scan finds exactly the lines `## [X.Y.Z]`, in order, each with its lines up to the next line that starts with `## [`. |
| ReleaseNotesWriter.MergeBody | scripts/ci-release-notes.ts:112-147 | The buffering loop adds exactly the body's categorized lines, each text once. |
| ReleaseNotesWriter.MergePackageSection | scripts/ci-release-notes.ts:97-180 | The text prints every kept line under its category, each category once, in canonical order. |
| ReleaseNotesOrder.CategoriesInOrder | scripts/ci-release-notes.ts:151-158 | The categories are printed in their fixed order, unknown ones after them as they collate. |
| ReleaseNotesOrder.MergedNotesReadBack | scripts/ci-release-notes.ts:97-180 | The text of the merged notes, read like a version's body, holds exactly the merged entries, each as often as it was merged. |

## Left out

- `StrictInliningIsExact`: the small language has no loops, closures, `var`, destructuring, `this`, types or member-access subtleties, and the analysis that excludes helpers with them is its precondition.
- `StrictInliningIsExact`: removing the helper declaration, going on to the next helper of a file, and the brace-less call statement that is wrapped in a block are not modelled.
- `DefaultSiteIsExact`: an argument written in place that names a variable which calls can assign, or reads a property, is outside it: default mode assumes that nothing changes those, and `DefaultModeReadsLate` shows that something may. Whether it does depends on what the called code does, so there is no condition on the call site alone.
- `WorkerAgreesWithLedger`: clients other than the modelled workers act under other worker names; requesters, reviewers and the reconciler are arbitrary ledger commands.
- `Inspect`: the list of candidate records for an unknown goal and the messages are not modelled.
- `GoalKeyMeaning`: case folding is that of ASCII letters; other letters are unchanged, where JavaScript lower-cases all of Unicode.
- `NormalizeMeaning`: the same.
- `PlanRewrite`: `isVerbatimLine` and the pattern for fragile tokens are parameters of the rewriter; its theorems hold for every classifier.
- `FixChangelogContent`: the counters reported next to the text are not modelled.
- `NoItemLost`: one direction, for sets of items; the same item may stand elsewhere in the document, so the set can survive a swallowed bullet. For items counted as often as they occur `ItemsKeptExactly` and `AllItemsKeptExactly` go both ways.
- `PassFixes`: version parts are unbounded integers; sorting with titles that are not numeric is unspecified in the source and modelled as stable insertion with NaN as equal.
- `PromotesExactly`: pairs and hunks are keyed by tuples where the source joins strings with a NUL character.
- In the release notes, newest means first in the selected order: two headings of equal precedence keep the order they have in the file, and without a floor only the target's own sections are selected.
- Changelog sections and subsections are values inside a document object; aliasing between the source's nested objects is not modelled.
- The table of parsed subsections is keyed by title to a position instead of to an object reference.
- Recovery of released sections from git history, and the surrounding git calls.
- SQLite, JSON text, SHA-256 and UUID generation: tables are maps and sequences, hashed tuples are themselves, ids are naturals that the caller supplies unused.
- A transaction reads the clock once; the source may read it twice within one transaction.
- Rows that SQL may return in any order are a choice that the theorems quantify over.
- Error messages and decision messages are reduced to their kind.
- `validateIntent`, the broker's HTTP checks, tokens and the operating-system side of the worker.
- Parsing the model's JSON reply, the request, the pauses between attempts and their messages; a reply is a map from ids to texts, or an error.
- The final text of a rewrite may have more lines than the input, because a reply may contain a newline; nothing is claimed about its line count.
- `localeCompare` is any total preorder on strings.
- Finding packages, changed paths, release floors and every other file, process or network access.
- Benchmarks, plots, session statistics, installers and the Python server.
