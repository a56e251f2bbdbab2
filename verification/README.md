# Proofs about the accounting review log, the ledger audit and the Draft generators

This project models the parts of the accounting application that hold state or do exact arithmetic, and proves what they
promise. `dafny verify dfyconfig.toml` checks everything.

## What is modelled

**Review outcomes** (`src/ai-accounting.js:234-245`, `405-547`). A reviewer's APPROVE, REJECT or EDIT is stored in one
document `{wals, drafts, events}` by two writes: a PREPARED intent, then draft, event and COMMITTED row together. The
files `review_*.dfy` hold the payload and the checks (`review_outcome`), the two writes and recovery as functions on the
document (`review_log`), what a call makes of its argument, a value of any heap whose objects may be shared or run in
circles (`review_request`), when that is what the plain tree of the argument makes (`review_tree`, `placement`), what a
save makes of a document whose new draft takes over objects of the log (`review_write`), the invariant "the document is
the fold of a log of committed outcomes" (`review_invariant`, `review_steps`, `review_runs`, `review_drafts`), crashes,
recoveries and replays (`review_crash`, `review_replay`, with concrete calls in `review_example` and
`review_shared_example`), the object with its `stored` field and every run of its callers (`review_repository`), and the
read-only projection (`review_trace`). Underneath lie JSON values (`json`), `Number` on them (`numbers`), the text
JSON.stringify writes (`text`), the secret-name search (`secrets`), `redactSecrets` on trees, on any finite object graph
and on values with node identity (`redaction`, `aliasing`), which nodes of a graph it copies and when two copies of one
value agree (`reachability`, `graph_copies`), and the canonical payload text (`canonical`).

**Rent-roll review** (`rent_roll.dfy`, `proposal.dfy`). Cases, exceptions, the difference Draft with the guard list it
passes through, and the Draft request that an approval in the log unlocks.

**Draft log** (`draft_wal.dfy`, `draft_wal_runs.dfy`). The older log of proposed Drafts under two storage keys, with an
event list bounded to five hundred, and lost or throwing saves.

**Ledger audit** (`audit*.dfy`, `tally.dfy`). The checks of one journal, the duplicate, unit-cost, closing and
intercompany passes as loops over maps and sets, what a silent verdict implies, and independence of the journals' order.

**Generators and documents.** The amortization schedule and its monthly Drafts (`amortization.dfy`), bills and invoices
with the callback of a posted journal (`documents.dfy`, `document_lifecycle.dfy`), the account register
(`register.dfy`) and the four-decimal codec of the disposal form (`money.dfy`).

## What the proofs found

- The first row that a call of `recover()` commits is a row of the very document it writes
  (`src/ai-accounting.js:502-505`). The reviewed draft then shares nodes with the log, and redaction overwrites them with
  its circular-reference marker. `RecoveryReachesUninterruptedIff` gives the exact condition, and `RecoveryLosesLines`
  shows that the lines are lost unless the patch replaced them; `RecoveryExample` is a concrete approval to which this
  happens. A row that is recovered behind another one loses nothing (`LaterRecoveryReachesUninterrupted`).
- The intent is written before the edited draft is checked (`src/ai-accounting.js:498-499`, `461`).
  `BlockedRowStopsRecovery` shows that such a row, and every PREPARED row behind it, is not recovered; `BlockedEditExample`
  is an accepted edit of a balanced Draft that ends so.
- Redaction copies an object where it meets it first and writes the circular-reference marker elsewhere. A call redacts
  twice: the payload it builds (`src/ai-accounting.js:414-423`) and the argument it stores (line 497). `recover()`
  recomputes the payload text from the stored copy (line 504), so it reports a conflict for an accepted call exactly when
  the two do not copy every object under the same part: draft and outcome must be copied where they stand, and each object
  must be met first under the same name in both (`NoConflictIff`, for any heap, circular or not, and any order of
  members; `SharedRequestNotRecoveredIff`). Two families always conflict: an outcome that shares an object with a draft
  listed before it (`SharedWithDraftConflicts`), and one that lists its metadata before its patch when both hold one object
  (`MetadataFirstConflicts`). `SharedReferencesExample` has a call of each: an approval that shares its source references
  with the Draft as the workbench does (`src/module-ai-je-workbench.jsx:66`, `100`), and the outcome
  `{decision: 'EDIT', idempotency_key, review_metadata: {source_refs: x}, patch: {source_refs: x}}`. Calling again never
  conflicts, because the text of the caller's own argument is compared (lines 492-494, `ReplayNeverConflicts`).
- The check that a Draft is balanced compares totals (`src/ai-accounting.js:449-454`), and no comparison with NaN holds. A
  Draft with the lines `[{debit: 125}, {credit: 'n/a'}]` passes and is committed (`UnreadableCreditExample`); an
  accepted Draft is balanced exactly when every credit amount of its lines is a number (`AcceptedDraftBalancedIff`).
- `isValidISODate` rejects the years 0 to 99 (`src/ai-accounting.js:133`), and `monthCode` does not pad years
  (`src/ai-accounting.js:213`). A rent-roll Draft is accepted exactly from the year 100 on, and an amortization Draft from
  the year 1000 on, although the period pattern and `coverageMonth` accept earlier years.
- A commit event of the Draft log whose save is lost is never written again (`CommitEventForeverIff`), and a recovery of
  more than five hundred Drafts is reported as unconfirmed although it was saved (`RecoverConfirmedIff`).
- A Draft without a journal number stands for every logged proposal without one
  (`src/ai-accounting.js:342`), so such proposals can stay without a Draft (`EveryProposalHasDraftIff`).
- The ending balance of an empty register window is zero whatever the opening balance
  (`src/account-register-evidence.js:66`, `EndingIsNextOpeningIff`).

Amounts are integers: cents in the generators, documents and register, ten-thousandths in the audit, the codec and the
JSON numbers. Times and generated identifiers are inputs.

## Model

| member | source | states |
|---|---|---|
| Text.NumberTextUnique | src/ai-accounting.js:426 | the text of a number, followed by anything that may follow it, determines the number |
| Text.QuoteUnique | src/ai-accounting.js:426 | a quoted text, followed by anything, determines the text |
| Json.SpreadFind | src/ai-accounting.js:460 | an object spread answers every lookup from the right operand first |
| Secrets.DraftColumnsArePublic | src/ai-accounting.js:234 | none of the names under which drafts and rows are found again is a secret name |
| Redaction.RedactFixes | src/ai-accounting.js:235-245 | redaction changes a tree exactly when some secret name still holds something other than the mask |
| Redaction.RedactMasks | src/ai-accounting.js:235-245 | after redaction every secret name, at any depth, holds only the mask |
| Redaction.RedactIdempotent | src/ai-accounting.js:235-245 | redacting twice is redacting once |
| Redaction.RedactGet | src/ai-accounting.js:244 | reading a public member commutes with redaction |
| Redaction.RedactSecrets | src/ai-accounting.js:235-245 | the recursion with its mutated seen-set ends on every finite graph, circular or not, and yields the specified copy and the specified seen-set |
| Redaction.RedactArray | src/ai-accounting.js:243 | mapping over an array threads one seen-set through all items |
| Redaction.RedactObject | src/ai-accounting.js:244 | rebuilding an object masks secret members without visiting them and threads one seen-set through the others |
| Redaction.CopiesEachNodeOnce | src/ai-accounting.js:240-244 | the copy is a finite masked tree with exactly one container per node seen for the first time |
| Redaction.RedactionIsFinal | src/ai-accounting.js:235-245 | the copy of any graph redacts to itself and has no more containers than the heap has nodes |
| Redaction.GraphRefinesLinked | src/ai-accounting.js:235-245 | on values that do not run in circles the graph recursion is the structural one |
| Redaction.TreeShapedIffAliasFree | src/ai-accounting.js:240 | redaction is the redaction of the plain tree exactly when no visible node occurs twice or was met before |
| Redaction.MoreSeen | src/ai-accounting.js:240 | having met more nodes changes the result exactly when one of them would have been copied |
| Reachability.MetIffReached | src/ai-accounting.js:239-244 | the nodes that a redaction newly meets and copies are exactly those to which a chain of references outside secret members leads past the nodes met before |
| GraphCopies.SameCopyIff | src/ai-accounting.js:235-245 | two redactions of one value that start from different met nodes agree, members in any order, exactly when they newly meet the same nodes |
| Canonical.SortCorrect | src/ai-accounting.js:412 | sorting members keeps what every lookup finds, and puts names in the order in which the rebuilt object lists them |
| Canonical.SortedUnique | src/ai-accounting.js:412 | two sorted member lists that answer every lookup alike are equal |
| Canonical.CanonEqualIffSame | src/ai-accounting.js:409-413 | canonical values are equal exactly when the values are equal up to member order |
| Canonical.WriteUnique | src/ai-accounting.js:426 | the text of a JSON value can be read back in one way only |
| Canonical.TextIdentifiesValue | src/ai-accounting.js:424-426 | two payloads have one canonical text exactly when they are equal up to member order |
| Numbers.NumberReadBack | src/ai-accounting.js:451-452 | `Number` reads a number back from its text, alone or as the only element of an array |
| ReviewOutcome.PassingIsBalancedIff | src/ai-accounting.js:451-453 | lines that pass the check are balanced exactly when every credit amount is a number |
| ReviewOutcome.AcceptedDraftBalancedIff | src/ai-accounting.js:449-454 | so an accepted Draft is balanced exactly when every credit amount of its lines is a number |
| ReviewOutcome.StoredRequestKeepsPayload | src/ai-accounting.js:414-426 | the payload recomputed from the stored redacted request is the original one, with its text |
| ReviewOutcome.StoredRequestStaysValid | src/ai-accounting.js:438-447 | a request and its stored form pass or fail the first check alike |
| ReviewOutcome.ReviewedGet | src/ai-accounting.js:457-462 | where each member of a reviewed draft comes from: revision, outcome, patch or draft, in this order |
| ReviewOutcome.AppliedKeepsProposal | src/ai-accounting.js:408-460 | no accepted patch moves a draft to another proposal |
| ReviewOutcome.AppliedStaysDraft | src/ai-accounting.js:460 | no accepted patch changes the posting status |
| ReviewOutcome.AppliedNamesOutcome | src/ai-accounting.js:460 | the reviewed draft names the outcome that made it |
| ReviewRequest.RequestIsStorable | src/ai-accounting.js:490-497 | however the objects of an argument are shared or run in circles, the stored copy is redacted and, if it passes the first check, still names the outcome and the proposal |
| ReviewRequest.NoConflictIff | src/ai-accounting.js:414-504 | for an accepted argument on any heap, the text recomputed from the stored copy is the original one exactly when draft and outcome are copied where they stand and every object is copied under the same part in the payload and in the argument |
| ReviewRequest.SharedWithDraftConflicts | src/ai-accounting.js:414-504 | with the draft listed first, an object to which both the draft and the reason, patch or metadata lead always changes that text |
| ReviewRequest.MetadataFirstConflicts | src/ai-accounting.js:414-504 | with the metadata listed before the patch, an object to which both and no earlier part lead always changes it, whether or not the draft holds it |
| ReviewTree.UnsharedIsTree | src/ai-accounting.js:490-500 | a call whose argument holds no object twice, its members in any order, answers and stores on every document what the call with the plain tree does |
| Placement.EveryTreeIsAnArgument | src/ai-accounting.js:490-500 | every plain tree is the argument of such a call |
| ReviewWrite.TakenOverDraftIsMet | src/ai-accounting.js:460-482 | a reviewed draft built over objects that the save met before keeps its scalars, the patch and the review, and shows the marker for every other nested member and old history entry |
| ReviewWrite.SharedDocumentIsMet | src/ai-accounting.js:472-487 | saving log, drafts and events when the last draft takes over objects of the log: everything else is written as the tree it is |
| ReviewWrite.SharedCommitIsWritten | src/ai-accounting.js:472-505 | so the drafts that the first recovered row stores are those of the specified commit |
| ReviewInvariant.PriorRevisionIsCount | src/ai-accounting.js:479-480 | the revision read off the committed rows counts the proposal's committed outcomes |
| ReviewSteps.PendingHasNoEvent | src/ai-accounting.js:484 | a PREPARED row has no event yet |
| ReviewSteps.PrepareKeepsInv | src/ai-accounting.js:497-498 | the intent of a new key, whatever objects it shares, adds one row and changes nothing else |
| ReviewSteps.CommitKeepsInv | src/ai-accounting.js:477-487 | a commit moves the document to the fold of the longer log |
| ReviewSteps.CommitStep | src/ai-accounting.js:472-488 | a kept commit is reported and is the fold of one more outcome; a lost, throwing or refused one is reported and changes nothing |
| ReviewRuns.ApplyStep | src/ai-accounting.js:490-500 | one call with every fate of both saves, for every storable request: the length-only read-back misses no lost save, and success is reported exactly when the writes it needed were kept |
| ReviewRuns.RecoverStep | src/ai-accounting.js:501-508 | recovery commits, in list order, exactly the PREPARED rows before the first that conflicts, is refused or is not saved, and leaves every other row as it was |
| ReviewRuns.StopAtIsFirst | src/ai-accounting.js:503-505 | where recovery stops is the first row whose payload text differs, whose draft is refused or whose save is lost |
| ReviewRuns.RecoverClearsTheLog | src/ai-accounting.js:501-508 | when no PREPARED row conflicts or is refused and no save is lost, none stays PREPARED |
| ReviewRuns.BlockedRowStopsRecovery | src/ai-accounting.js:461-505 | a row that conflicts or whose draft is refused ends recovery with a failure, and it and all rows behind it stay as they are |
| ReviewDrafts.DraftComesFromNewest | src/ai-accounting.js:482-483 | every stored draft was written by the newest outcome of its proposal |
| ReviewDrafts.NewestIsStored | src/ai-accounting.js:482-483 | the draft of every proposal's newest outcome is stored |
| ReviewDrafts.OneDraftPerProposal | src/ai-accounting.js:483 | no two stored drafts are of one proposal |
| ReviewCrash.ReplayReachesUninterrupted | src/ai-accounting.js:490-500 | a crash between the writes and the same call again reach the document of the uninterrupted call, for every storable request |
| ReviewCrash.DoneThenReused | src/ai-accounting.js:495-496 | once committed, the same call writes nothing: no second event, revision or draft |
| ReviewCrash.SharedWriteKeepsDraftIff | src/ai-accounting.js:472-505 | a write that shares the log's nodes keeps the reviewed draft exactly when the request brings nothing nested into it |
| ReviewCrash.RecoveryReachesUninterruptedIff | src/ai-accounting.js:501-508 | a crash and recovery: a changed payload text is reported and nothing is written; otherwise rows up to the recovery time, events and all other drafts are those of the uninterrupted call, and the recovered draft is the same exactly when the stored request brings nothing nested into it |
| ReviewCrash.StoredLosesIff | src/ai-accounting.js:457-505 | for a plain argument that condition is visible before the call: a nested history entry, or a nested public member that neither the patch nor the review sets |
| ReviewCrash.LaterRecoveryReachesUninterrupted | src/ai-accounting.js:501-508 | a row recovered behind others: drafts and events are exactly those of recovering the others and making the call undisturbed |
| ReviewCrash.RecoveryLosesLines | src/ai-accounting.js:449-505 | unless the patch replaced them, the lines of a draft so recovered are the marker, and the draft no longer passes its own check |
| ReviewExample.ApprovalIsValid | src/ai-accounting.js:438-447 | a concrete approval of a balanced two-line Draft passes the first check |
| ReviewExample.ApprovalCommits | src/ai-accounting.js:449-462 | its stored form passes both checks of the commit, whatever the clock says |
| ReviewExample.RecoveryExample | src/ai-accounting.js:490-508 | on the empty document that approval, a crash between the writes and a recovery store another draft than the uninterrupted call, with the same events |
| ReviewExample.BlockedEditExample | src/ai-accounting.js:461-505 | an edit that passes the first check and unbalances its Draft stays PREPARED, and every recovery stops at it and changes no row |
| ReviewExample.UnreadableCreditExample | src/ai-accounting.js:449-487 | an edit to a credit amount that is no number is committed, and the stored Draft is not balanced |
| ReviewReplay.ReplayNeverConflicts | src/ai-accounting.js:490-495 | once a first call has stored its intent, the same call never reports a conflict again, after any run and whatever its objects share |
| ReviewReplay.SharedRequestNotRecoveredIff | src/ai-accounting.js:501-508 | a crash, then recovery: the conflict that changes nothing is reported exactly when payload and argument do not copy alike; otherwise the row is committed exactly when its stored copy passes the checks |
| ReviewSharedExample.SharedReferencesExample | src/module-ai-je-workbench.jsx:63-100 | three accepted calls: recovery reports a conflict for the approval that holds the Draft's own references and for the edit that holds one array of references twice, and commits the approval that holds a copy; calling again commits either approval |
| ReviewRepository.Repository.constructor | src/ai-accounting.js:468-471 | a new repository holds the empty document, the fold of the empty log |
| ReviewRepository.Repository.Persist | src/ai-accounting.js:472-476 | a save that changes a length is confirmed exactly when storage kept it; one that keeps all lengths is confirmed unless storage throws, so its loss goes unnoticed |
| ReviewRepository.Repository.CommitRow | src/ai-accounting.js:477-488 | the commit as it runs: the document follows the specification and the log grows exactly on success |
| ReviewRepository.Repository.ApplyOutcome | src/ai-accounting.js:490-500 | a call as it runs, on any argument, shared or circular: reply and document follow the specification, the invariant is kept and the log grows exactly when the caller is told |
| ReviewRepository.Repository.RecoverPending | src/ai-accounting.js:501-508 | the recovery loop as it runs follows the specification, keeps the invariant and logs exactly the rows before the first that stops it |
| ReviewRepository.StepKeepsInv | src/ai-accounting.js:489-511 | every call keeps the invariant, whatever storage does |
| ReviewRepository.EveryRunIsAFold | src/ai-accounting.js:468-511 | after any run of calls, crashes and lost saves the document is the fold of a log: unique keys, one event per committed row, revisions 1 to n per proposal, one draft per proposal |
| ReviewTrace.CompleteIffNewest | src/ai-accounting.js:516-545 | evidence is COMPLETE for exactly the row of each proposal's newest outcome |
| ReviewTrace.ApprovalIffLatest | src/ai-accounting.js:516-545 | the projection shows an approval exactly when the newest committed outcome is APPROVE, with its revision |
| Proposal.DayOfPeriod | src/ai-accounting.js:133-134 | a date made of a period and a day up to 28 lies in the period, and is valid exactly from the year 100 on |
| RentRoll.BuildReview | src/ai-rent-roll-review.js:39-53 | each row of the period becomes one case or one exception, in order, and the first refused Draft ends the review with its refusal |
| RentRoll.DraftAcceptedIff | src/ai-rent-roll-review.js:19-24 | the guard list accepts the difference Draft exactly when the period is a month of the year 100 or later |
| RentRoll.EarlyPeriodExample | src/ai-accounting.js:133-134 | the period 0099-07 is accepted as a period and every difference Draft in it is refused |
| RentRoll.PostingTies | src/ai-rent-roll-review.js:15-53 | posting a case's Draft ties that case and leaves the review of every other row unchanged |
| RentRoll.RequestIffLatestApproves | src/ai-rent-roll-review.js:25-33 | a mismatched case carries a Draft request exactly when the newest committed outcome for its proposal is APPROVE |
| Audit.CheckMoney | audit.js:155-182 | the sign, balance and debit failures of a journal, each once, and no others |
| Audit.CheckUnitsNamed | audit.js:376-382 | the cost-of-sales lines without a unit, each once, and no others |
| Audit.CheckCounterparties | audit.js:385-401 | the intercompany lines without a group counterparty or naming their own entity, each once, and no others |
| Audit.CheckJournal | audit.js:155-401 | the modelled failures of one journal, each once, and no others |
| Audit.CheckJournals | audit.js:155-402 | the first pass reports every deserved failure once and nothing else |
| Audit.PostingOrigin | audit.js:440-441 | every posted line comes from a posted journal |
| AuditPasses.SameSignatureIff | audit.js:417-418 | two journals share a signature exactly when entity, period, date and the multiset of line texts agree |
| AuditPasses.LineTextInjective | audit.js:418 | the text of a line determines the line when its account and unit codes have no colon |
| AuditPasses.SameSignatureSameLines | audit.js:417-418 | two such journals share a signature exactly when entity, period, date and lines, each as often, agree |
| AuditPasses.ColonExample | audit.js:418 | with a colon in a code two different lines have one text |
| AuditPasses.CheckDuplicates | audit.js:407-435 | each number, identifier and signature carried by two or more posted journals is reported once, and no other |
| AuditPasses.UnitLedger | audit.js:440-457 | the unit map holds each unit's cost, finished-inventory and cost-of-sales totals |
| AuditPasses.CheckUnitCost | audit.js:459-470 | each over-relieved unit is reported once under each rule it breaks, and no other |
| AuditPasses.CheckClosings | audit.js:445-476 | each sale without cost in the same entity, period and unit is reported once, and no other |
| AuditPasses.PairPeriods | audit.js:481-496 | the pair map holds exactly the pairs with an eligible line, with their net amounts |
| AuditPasses.CheckMirror | audit.js:497-508 | an unmirrored pair is reported once, from whichever side came first, and every reported pair is unmirrored |
| AuditVerdict.RunAudit | audit.js:155-508 | the whole gate names every modelled defect once and nothing else |
| AuditVerdict.IntercompanyEliminates | audit.js:173-508 | silence on balance, entity and pairs means that in every period all posted intercompany lines net to zero and the rest still balances |
| AuditVerdict.CostOfSalesIsCovered | audit.js:169-470 | silence on signs, units and relief means that no entity's posted cost of sales exceeds its capitalised unit cost or its transfers into finished inventory |
| AuditOrder.FailureCountsReordered | audit.js:155-402 | any set of first-pass rules raises as many failures in any order of the journals |
| AuditOrder.ClassesReordered | audit.js:436-508 | which units, sales and pairs are bad does not depend on the order of the posted lines |
| AuditOrder.VerdictReordered | audit.js:155-508 | reordering the journals changes no failure count and none of the reported numbers, identifiers, signatures, units and sales |
| Amortization.CoverageMonths | src/ai-accounting.js:226-227 | the month loop ends and lists exactly the months from start to end |
| Amortization.MonthCodeInjective | src/ai-accounting.js:213 | different months have different codes |
| Amortization.CreateSchedule | src/ai-accounting.js:218-231 | each guard's failure, or a schedule whose lines cover the coverage, sum to the bill and differ only in the last by less than the month count |
| Amortization.NoMonthTwice | src/ai-accounting.js:227-229 | no two lines of a schedule are of one month |
| Amortization.CodeIsPeriodIff | src/ai-accounting.js:134-213 | a month code is a valid period exactly when its year has four digits |
| Amortization.DraftPreparedIff | src/ai-accounting.js:296-303 | a pending line with money gives a Draft exactly when its year has four digits; without money it is not available |
| Amortization.DraftsClearBillIff | src/ai-accounting.js:218-303 | the Drafts of all lines clear the prepaid account by exactly the bill if and only if the first month that carries money has a four-digit year |
| Amortization.EarlyYearExample | src/ai-accounting.js:213-227 | a one-cent bill with coverage 0999-12 passes every guard, and no schedule that it can get is cleared by its Drafts |
| DraftWal.NewestOfNewest | src/ai-accounting.js:365 | keeping the newest five hundred after each append is keeping the newest five hundred of everything |
| DraftWal.LostRowDetected | src/ai-accounting.js:357-362 | a lost save of a new row is detected |
| DraftWal.LostCommitDetectedIff | src/ai-accounting.js:357-362 | a lost save of a commit is detected exactly when it would have changed a row |
| DraftWal.PrepareKeepsInv | src/ai-accounting.js:373-380 | preparing keeps the invariant; success means the row was saved, and a lost first save changes nothing and is reported |
| DraftWal.PrepareReuses | src/ai-accounting.js:373-376 | a proposal already in the log, and no other, is answered with its row and writes nothing |
| DraftWal.CommitKeepsInv | src/ai-accounting.js:389-403 | committing keeps the invariant; success means the row is COMMITTED |
| DraftWalRuns.RecoverKeepsInv | src/ai-accounting.js:381-388 | recovery touches no row and writes no commit event |
| DraftWalRuns.SecondRecoveryDoesNothing | src/ai-accounting.js:340-388 | a second recovery that is given the Drafts of the first makes none and logs nothing |
| DraftWalRuns.EveryProposalHasDraftIff | src/ai-accounting.js:342 | after a recovery every logged proposal has its own Draft exactly when each one without had a journal number that no Draft carried |
| DraftWalRuns.MissingNumberExample | src/ai-accounting.js:342 | a logged proposal without a journal number gets no Draft while another Draft has none either |
| DraftWalRuns.AppendConfirmedIff | src/ai-accounting.js:363-369 | fresh events are confirmed exactly when their save was kept and there are at most five hundred |
| DraftWalRuns.RecoverConfirmedIff | src/ai-accounting.js:363-388 | a recovery under a new stamp is confirmed exactly when it made no Draft or its events were saved and are at most five hundred; a kept save logs all of them either way |
| DraftWalRuns.TooManyRecoveriesExample | src/ai-accounting.js:363-388 | recovering five hundred and one proposals saves all events and is reported as not confirmed |
| DraftWalRuns.RunKeepsInv | src/ai-accounting.js:351-405 | over every run: one row per proposal, states only advance, stored events are the newest five hundred of all, at most one commit event per proposal and none after its row is COMMITTED |
| DraftWalRuns.CommitEventForeverIff | src/ai-accounting.js:398-400 | a saved commit has its event in every future exactly when the event's own save was kept |
| DraftWalRuns.MarkCommitted | src/ai-accounting.js:391-397 | the row rewrite marks exactly the proposal's row and tells whether that changed anything |
| DraftWalRuns.DraftRepository.constructor | src/ai-accounting.js:351-356 | a new log is empty |
| DraftWalRuns.DraftRepository.WriteRows | src/ai-accounting.js:357-362 | a kept save is always confirmed, and a lost one goes unnoticed exactly when every row to be saved was already stored with its state |
| DraftWalRuns.DraftRepository.WriteEvents | src/ai-accounting.js:363-369 | fresh events are confirmed exactly when their save was kept and at most five hundred are new, and the stored events stay the newest of all ever saved |
| DraftWalRuns.DraftRepository.PrepareDraft | src/ai-accounting.js:373-380 | prepare as it runs follows the specification and keeps the invariant |
| DraftWalRuns.DraftRepository.RecoverDrafts | src/ai-accounting.js:381-388 | recover as it runs follows the specification and keeps the invariant |
| DraftWalRuns.DraftRepository.CommitProposal | src/ai-accounting.js:389-403 | commit as it runs follows the specification and keeps the invariant |
| Documents.DebitLines | src/ap-workflow.js:54-64 | the bill loop yields the debit lines and their total, or nothing when a line is invalid |
| Documents.RunApproveBill | src/ap-workflow.js:46-70 | approval as it runs follows its specification |
| DocumentLifecycle.ApproveDrafts | src/ap-workflow.js:46-70 | an approved bill waits for a Draft journal that credits 291001 by its amount |
| DocumentLifecycle.PayDrafts | src/ap-workflow.js:72-90 | a paid bill waits for a Draft journal that debits 291001 by its amount |
| DocumentLifecycle.InvoiceDrafts | src/ar-workflow.js:28-43 | a created invoice waits for a Draft journal that debits 120200 by its amount |
| DocumentLifecycle.ReceiveDrafts | src/ar-workflow.js:45-63 | a received invoice waits for a Draft journal that credits 120200 by its amount |
| DocumentLifecycle.PostingMoves | src/document-posting.js:29-77 | the callback accepts every Draft journal and moves exactly the document that waits for it |
| DocumentLifecycle.ReplayIsIdempotent | src/document-posting.js:38-60 | replaying the callback of a posted journal changes nothing |
| DocumentLifecycle.StepKeepsInv | src/ap-workflow.js:46-90 | every step keeps Draft journals and documents paired and both control accounts equal to what is open |
| DocumentLifecycle.ControlAccountsHold | src/module-ap.jsx:16 | over every run 291001 holds the bills APPROVED or PAYMENT_PENDING and 120200 the invoices OPEN or PAYMENT_PENDING |
| DocumentLifecycle.SourcesStayUnique | src/ap-workflow.js:14-16 | over every run of callers that hand over the existing journals no source is journalised twice, so one payment id pays one document |
| DocumentLifecycle.LedgerAgreesWithDocuments | src/module-ap.jsx:16 | from the first document on, both control accounts equal the open documents, and with informed callers no source is journalised twice |
| Register.SortedAscends | src/account-register-evidence.js:22 | the entries come out in date, number and line order |
| Register.SortedKeeps | src/account-register-evidence.js:22 | sorting keeps the entries and what they move |
| Register.RunningAt | src/account-register-evidence.js:29-33 | each running balance is the opening balance and the signed movement up to its row |
| Register.Entries | src/account-register-evidence.js:15-34 | the loop that carries the running balance yields the specified rows |
| Register.NextOpening | src/account-register-evidence.js:7-13 | the next opening balance is this one and the window's signed movement |
| Register.EndingIsNextOpeningIff | src/account-register-evidence.js:66 | the ending balance shown is the next opening balance exactly when the window has a row or the opening balance is zero |
| Register.EmptyWindowExample | src/account-register-evidence.js:66 | an empty window after a posted journal shows zero while the next period opens with its balance |
| Register.WindowConcatenates | src/account-register-evidence.js:15-34 | when dates follow periods a window is its sub-windows in turn, with balances carried over |
| Money.MinorOfText | src/authoritative-asset-disposal.jsx:9-10 | every count is read back from its text |
| Money.TextIsCanonical | src/authoritative-asset-disposal.jsx:10 | the text of a count is canonical and never a negative zero |
| Money.TextOfMinorIff | src/authoritative-asset-disposal.jsx:9-10 | a canonical text is the text of its count exactly when it is not the negative zero |
| Money.NegativeZeroExample | src/authoritative-asset-disposal.jsx:9-10 | the negative zero is canonical, counts zero, and is not the text of zero |
| Money.GainIsExact | src/authoritative-asset-disposal.jsx:25 | the gain or loss shown is the one canonical text, negative zero aside, that counts the exact difference |

## Left out

- Canonical.TextIdentifiesValue: texts are sequences of Unicode scalar values, ordered by UTF-16 code units; a lone surrogate is not a text of this model.
- Text.NumberTextUnique: numbers are counts of ten-thousandths written without exponent; finer or larger binary fractions are not modelled.
- ReviewOutcome.StoredRequestKeepsPayload: it speaks of requests in which nothing is shared; `NoConflictIff` covers the others.
- ReviewOutcome.StoredRequestStaysValid: it speaks of requests in which nothing is shared; an undefined member is read as null, a patch is an object, and `lines` and `history` are arrays when they are present.
- Numbers.NumberReadBack: texts with an exponent, a radix prefix, surrounding blanks or more than four decimals count as not a number, and infinite amounts are not modelled.
- ReviewRepository.EveryRunIsAFold: events carry key, type, actor, decision, revision and time; correlation, object and finding identifiers are not modelled, a Draft's proposal id is no object, and `storage.load` returns a fresh copy.
- ReviewCrash.LaterRecoveryReachesUninterrupted: it speaks of the rows ahead being recovered; when one of them stops the recovery, `BlockedRowStopsRecovery` applies.
- ReviewRequest.RequestIsStorable: a Draft's proposal id is no object, because `===` never finds a stored object again; the generators make it a text.
- ReviewRepository.Repository.ApplyOutcome: the same holds of its argument, and keys, decisions and actors that are not texts count as missing.
- ReviewRepository.StepKeepsInv: the same holds of its steps.
- RentRoll.RequestIffLatestApproves: it does not bind an amount, because the proposal id of a case contains none.
- Audit.CheckJournals: precision, chart-of-accounts, period, provenance, loan, deposit and construction rules and the engine's `validateJE` are single-branch rules or not shown; account families and the entity master are abstract, and keys are tuples, so names are assumed free of the delimiters the source joins with.
- AuditPasses.CheckDuplicates: a signature is a record, so entity, period and date are assumed free of the delimiters the source joins with.
- Amortization.CreateSchedule: amounts are whole cents, so `Math.round` and non-finite amounts do not appear.
- Amortization.DraftsClearBillIff: the expense and the prepaid account differ; percent-encoding inside finding identifiers is not modelled.
- DraftWalRuns.RunKeepsInv: rows keep proposal, state, journal number and posting status of a Draft; its other members, the evidence and creation times are not modelled.
- DocumentLifecycle.ControlAccountsHold: posting and its callback are one step, amounts are whole cents, no document chooses a control account for its own lines, and voids, refunds and reversals are not part of this model.
- Register.WindowConcatenates: periods, dates and numbers stand for their places in the collation order, and the account type's normal side is an input.
- Money.MinorOfText: `BigInt` on hexadecimal text or text with surrounding blanks is not modelled.
- The accrual schedule, reconciliation matching, the finding rules of `runAccountingBrain` and the aging and reporting read models: one reading of a branch settles each.
- React components, navigation, attachments, network clients and identity bootstrap: user interface and plumbing without a property of this kind.
- Floating-point rounding, clocks, random identifiers and message wording: inputs or not modelled.
