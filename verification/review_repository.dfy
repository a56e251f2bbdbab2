/** The repository object over its stored document, and every run of its callers. */
module ReviewRepository {
  import opened Json
  import opened Redaction
  import opened GraphCopies
  import opened ReviewOutcome
  import opened ReviewLog
  import opened ReviewInvariant
  import opened ReviewSteps
  import opened ReviewRequest
  import opened ReviewRuns
  import opened ReviewDrafts

  /** A call's argument is any value of a heap, shared or circular; only the Draft's proposal id is no object. */
  ghost predicate Legal(heap: Graph, argument: Value) {
    Heap(heap) && Wellformed(heap, argument) && Scalar(ProposalId(InputOf(heap, argument).draft))
  }

  /** The request of such a call. */
  function Asked(heap: Graph, argument: Value): Request
    requires Legal(heap, argument)
  {
    HeapIsClosed(heap);
    RequestOf(heap, argument)
  }

  lemma LegalIsStorable(heap: Graph, argument: Value)
    requires Legal(heap, argument)
    ensures Storable(Asked(heap, argument))
    ensures Heap(heap) && Closed(heap) && Wellformed(heap, argument) && Asked(heap, argument) == RequestOf(heap, argument)
  {
    hide ProposalId, InputOf, RequestOf, Heap, Wellformed, Storable, Closed;
    RequestIsStorable(heap, argument);
  }

  class Repository {
    /** What storage.load returns. */
    var stored: Doc
    /** The outcomes committed so far. */
    ghost var log: seq<Entry>

    constructor ()
      ensures Inv(stored, log) && stored == EMPTY && log == []
    {
      stored := EMPTY;
      log := [];
    }

    /**
     * Save, then read back and compare lengths. A save that changes a length is confirmed exactly when storage
     * kept it; a save that keeps all lengths may be lost unnoticed.
     */
    method Persist(next: Doc, fault: Fault) returns (error: Option<Error>)
      modifies this`stored
      ensures stored == Saved(old(stored), next, fault)
      ensures error == PersistError(old(stored), next, fault)
      ensures !SameLengths(old(stored), next) ==> (error.None? <==> fault.Kept?)
      ensures SameLengths(old(stored), next) ==> (error.None? <==> !fault.Thrown?)
      ensures stored == if fault.Kept? then RedactDoc(next) else old(stored)
    {
      if fault.Thrown? {
        return Some(StorageThrew);
      }
      if fault.Kept? {
        stored := RedactDoc(next);
      }
      var read := stored;
      if |read.wals| != |next.wals| || |read.drafts| != |next.drafts| || |read.events| != |next.events| {
        return Some(NotConfirmed);
      }
      return None;
    }

    method CommitRow(row: Row, t: Times, recovered: bool, shared: bool, fault: Fault) returns (reply: Reply)
      requires Inv(stored, log) && row in stored.wals && row.state.Prepared?
      modifies this
      ensures Inv(stored, log)
      ensures (reply, stored) == Commit(old(stored), row, t, recovered, shared, fault)
      ensures log == if reply.Done? then old(log) + [Entry(row, t, recovered, shared)] else old(log)
      ensures !reply.Reused?
    {
      hide *;
      ghost var before := stored;
      CommitStep(stored, log, Entry(row, t, recovered, shared), fault);
      CommitUnfolds(stored, row, t, recovered, shared, fault);
      OneReply();
      var refused := CommitError(row, t);
      if refused.Some? {
        return Failed(refused.value);
      }
      var revision := NextRevision(stored, row);
      var error := Persist(CommitDoc(stored, row, t, recovered, shared), fault);
      if error.Some? {
        return Failed(error.value);
      }
      log := log + [Entry(row, t, recovered, shared)];
      reply := Done(Reviewed(row.input, t.reviewed, revision), NewEvent(row, t, revision), recovered);
    }

    /**
     * One review outcome. Whatever storage does with the two writes, the document stays the fold of the
     * log, and the log grows by this outcome exactly when the caller is told that it is committed.
     */
    method ApplyOutcome(heap: Graph, argument: Value, t: Times, first: Fault, second: Fault) returns (reply: Reply)
      requires Inv(stored, log) && Legal(heap, argument)
      modifies this
      ensures Inv(stored, log)
      ensures (reply, stored) == Apply(old(stored), Asked(heap, argument), t, first, second)
      ensures log == if reply.Done? then old(log) + [Entry(WorkRow(old(stored), Asked(heap, argument), t), t, false, false)]
                     else old(log)
    {
      hide *;
      LegalIsStorable(heap, argument);
      var req := Asked(heap, argument);
      OneReply();
      ApplyUnfolds(stored, req, t, first, second);
      ApplyReplies(stored, req, t, first, second);
      ApplyStep(stored, log, req, t, first, second);
      ProceedsParts(stored, req, t);
      ProceedsWhen(stored, req);
      var invalid := Validate(req.input);
      if invalid.Some? {
        return Failed(invalid.value);
      }
      var existing := FindRow(stored.wals, req.input.outcome.key);
      if existing.Some? && existing.value.canonical != req.canonical {
        return Failed(IdempotencyConflict);
      }
      if existing.Some? && existing.value.state.Committed? {
        return Reused(FindDraft(stored.drafts, req.input.outcome.key), FindEvent(stored.events, EventId(req.input.outcome.key)));
      }
      var row: Row;
      if existing.Some? {
        row := existing.value;
      } else {
        row := NewRow(req, t);
        PrepareKeepsInv(stored, log, req, t);
        IntentSaved(stored, Intended(stored, req, t), first);
        var error := Persist(stored.(wals := stored.wals + [row]), first);
        if error.Some? {
          return Failed(error.value);
        }
      }
      reply := CommitRow(row, t, false, false, second);
    }

    /** The recovery loop; the first failure ends it. */
    method RecoverPending(attempt: nat -> Attempt) returns (replies: seq<Reply>)
      requires Inv(stored, log)
      modifies this
      ensures Inv(stored, log)
      ensures (replies, stored) == Recover(old(stored), attempt)
      ensures (var pending := PreparedRows(old(stored).wals);
               log == old(log) + RecoveredLog(pending, 0, StopAt(pending, 0, attempt), attempt))
    {
      hide *;
      var pending := PreparedRows(stored.wals);
      RecoveryBegins(stored, log, attempt);
      replies := [];
      var n := 0;
      while n < |pending|
        invariant 0 <= n <= |pending|
        invariant Recovering(old(stored), old(log), pending, n, attempt, replies, stored, log)
      {
        RowInTurn(old(stored), old(log), pending, n, attempt, replies, stored, log);
        var conflict := RecoveryError(pending[n]);
        if conflict.Some? {
          ConflictEnds(old(stored), old(log), pending, n, attempt, replies, stored, log);
          replies := replies + [Failed(conflict.value)];
          return;
        }
        ghost var before, logged := stored, log;
        var reply := CommitRow(pending[n], attempt(n).t, true, n == 0, attempt(n).fault);
        CommitGoesOn(old(stored), old(log), pending, n, attempt, replies, before, logged, reply);
        replies := replies + [reply];
        if reply.Failed? {
          return;
        }
        n := n + 1;
      }
      RecoveryEnds(old(stored), old(log), pending, attempt, replies, stored, log);
    }
  }

  // ---------------------------------------------------------------- the recovery loop

  /** What the loop has done before its n-th row. */
  ghost predicate Recovering(
    start: Doc, first: seq<Entry>, pending: seq<Row>, n: nat, attempt: nat -> Attempt, replies: seq<Reply>,
    doc: Doc, log: seq<Entry>)
    requires n <= |pending|
  {
    && Inv(doc, log) && StillPending(doc.wals, pending, n)
    && log == first + RecoveredLog(pending, 0, n, attempt)
    && StopAt(pending, 0, attempt) == StopAt(pending, n, attempt)
    && Recover(start, attempt)
       == (replies + RecoverRows(doc, pending, n, attempt).0, RecoverRows(doc, pending, n, attempt).1)
  }

  lemma RecoveringParts(
    start: Doc, first: seq<Entry>, pending: seq<Row>, n: nat, attempt: nat -> Attempt, replies: seq<Reply>,
    doc: Doc, log: seq<Entry>)
    requires n <= |pending|
    ensures Recovering(start, first, pending, n, attempt, replies, doc, log)
       <==> && Inv(doc, log) && StillPending(doc.wals, pending, n)
            && log == first + RecoveredLog(pending, 0, n, attempt)
            && StopAt(pending, 0, attempt) == StopAt(pending, n, attempt)
            && Recover(start, attempt)
               == (replies + RecoverRows(doc, pending, n, attempt).0, RecoverRows(doc, pending, n, attempt).1)
  {
    hide Inv, StillPending, RecoveredLog, StopAt, Recover, RecoverRows;
  }

  lemma RecoveryBegins(doc: Doc, log: seq<Entry>, attempt: nat -> Attempt)
    requires Inv(doc, log)
    ensures Recovering(doc, log, PreparedRows(doc.wals), 0, attempt, [], doc, log)
  {
    hide *;
    var pending := PreparedRows(doc.wals);
    InvParts(doc, log);
    FollowsUnique(doc.wals, log);
    PreparedRowsExact(doc.wals);
    RecoverIs(doc, attempt);
    StopAtEnd(pending, attempt);
    assert log + [] == log && [] + RecoverRows(doc, pending, 0, attempt).0 == RecoverRows(doc, pending, 0, attempt).0;
    RecoveringParts(doc, log, pending, 0, attempt, [], doc, log);
  }

  lemma RowInTurn(
    start: Doc, first: seq<Entry>, pending: seq<Row>, n: nat, attempt: nat -> Attempt, replies: seq<Reply>,
    doc: Doc, log: seq<Entry>)
    requires n < |pending| && Recovering(start, first, pending, n, attempt, replies, doc, log)
    ensures Inv(doc, log) && pending[n] in doc.wals && pending[n].state.Prepared?
  {
    hide *;
    RecoveringParts(start, first, pending, n, attempt, replies, doc, log);
    PendingRow(doc.wals, pending, n);
  }

  lemma ConflictEnds(
    start: Doc, first: seq<Entry>, pending: seq<Row>, n: nat, attempt: nat -> Attempt, replies: seq<Reply>,
    doc: Doc, log: seq<Entry>)
    requires n < |pending| && Recovering(start, first, pending, n, attempt, replies, doc, log)
    requires RecoveryError(pending[n]).Some?
    ensures Recover(start, attempt) == (replies + [Failed(RecoveryError(pending[n]).value)], doc)
    ensures log == first + RecoveredLog(pending, 0, StopAt(pending, 0, attempt), attempt)
  {
    hide *;
    RecoveringParts(start, first, pending, n, attempt, replies, doc, log);
    RecoverUnfolds(doc, pending, n, attempt);
    ConflictIs(pending[n]);
    StopsParts(pending[n], attempt(n));
    StopAtUnfolds(pending, n, attempt);
  }

  /** One row further, or the end. */
  lemma CommitGoesOn(
    start: Doc, first: seq<Entry>, pending: seq<Row>, n: nat, attempt: nat -> Attempt, replies: seq<Reply>,
    doc: Doc, log: seq<Entry>, reply: Reply)
    requires n < |pending| && Recovering(start, first, pending, n, attempt, replies, doc, log)
    requires RecoveryError(pending[n]).None?
    requires reply == Commit(doc, pending[n], attempt(n).t, true, n == 0, attempt(n).fault).0
    ensures (var after := Commit(doc, pending[n], attempt(n).t, true, n == 0, attempt(n).fault).1;
             var e := Entry(pending[n], attempt(n).t, true, n == 0);
             && (reply.Failed? || reply.Done?) && !(reply.Failed? && reply.Done?)
             && (reply.Done? ==> Recovering(start, first, pending, n + 1, attempt, replies + [reply], after, log + [e]))
             && (reply.Failed? ==> Recover(start, attempt) == (replies + [reply], after)
                                   && log == first + RecoveredLog(pending, 0, StopAt(pending, 0, attempt), attempt)))
  {
    hide *;
    var a := attempt(n);
    var e, after := Entry(pending[n], a.t, true, n == 0), Commit(doc, pending[n], a.t, true, n == 0, a.fault).1;
    OneReply();
    RecoveringParts(start, first, pending, n, attempt, replies, doc, log);
    PendingRow(doc.wals, pending, n);
    RecoverUnfolds(doc, pending, n, attempt);
    StopsParts(pending[n], a);
    StopAtUnfolds(pending, n, attempt);
    CommitStep(doc, log, e, a.fault);
    if reply.Done? {
      InvParts(doc, log);
      CommitLeavesOtherRows(doc, e.row, e.t, true, n == 0, pending, n);
      RowsStayPending(doc.wals, after.wals, pending, n);
      RecoveredNext(first, pending, n, attempt);
      Regroup(replies, reply, RecoverRows(after, pending, n + 1, attempt).0);
      RecoveringParts(start, first, pending, n + 1, attempt, replies + [reply], after, log + [e]);
    }
  }

  lemma RecoveryEnds(
    start: Doc, first: seq<Entry>, pending: seq<Row>, attempt: nat -> Attempt, replies: seq<Reply>,
    doc: Doc, log: seq<Entry>)
    requires Recovering(start, first, pending, |pending|, attempt, replies, doc, log)
    ensures Inv(doc, log) && Recover(start, attempt) == (replies, doc)
    ensures log == first + RecoveredLog(pending, 0, StopAt(pending, 0, attempt), attempt)
  {
    hide *;
    RecoveringParts(start, first, pending, |pending|, attempt, replies, doc, log);
    StopAtEnd(pending, attempt);
    RecoverEnds(doc, pending, attempt);
    assert replies + [] == replies;
  }

  lemma Regroup(a: seq<Reply>, r: Reply, b: seq<Reply>)
    ensures a + ([r] + b) == (a + [r]) + b
  {
  }

  lemma ConflictIs(row: Row)
    ensures RecoveryError(row).Some? ==> RecoveryError(row).value == RecoveryConflict
  {
    hide PayloadText;
  }

  lemma RecoveredNext(log: seq<Entry>, pending: seq<Row>, n: nat, attempt: nat -> Attempt)
    requires n < |pending|
    ensures log + RecoveredLog(pending, 0, n + 1, attempt)
         == log + RecoveredLog(pending, 0, n, attempt) + [Entry(pending[n], attempt(n).t, true, n == 0)]
  {
    var more, whole := RecoveredLog(pending, 0, n, attempt), RecoveredLog(pending, 0, n + 1, attempt);
    assert whole == more + [Entry(pending[n], attempt(n).t, true, n == 0)];
  }

  lemma StopAtEnd(pending: seq<Row>, attempt: nat -> Attempt)
    ensures StopAt(pending, |pending|, attempt) == |pending|
    ensures RecoveredLog(pending, 0, 0, attempt) == []
  {
  }

  lemma RecoverEnds(doc: Doc, pending: seq<Row>, attempt: nat -> Attempt)
    ensures RecoverRows(doc, pending, |pending|, attempt) == ([], doc)
    ensures forall rs: seq<Reply> :: [] + rs == rs && rs + [] == rs
  {
  }

  lemma OneReply()
    ensures forall r: Reply :: (r.Done? ==> !r.Failed? && !r.Reused?) && (r.Failed? ==> !r.Reused?)
    ensures forall r: Reply :: r.Done? || r.Failed? || r.Reused?
  {
  }

  lemma CommitUnfolds(doc: Doc, row: Row, t: Times, recovered: bool, shared: bool, fault: Fault)
    ensures (var next, revision := CommitDoc(doc, row, t, recovered, shared), NextRevision(doc, row);
             var error := PersistError(doc, next, fault);
             Commit(doc, row, t, recovered, shared, fault)
             == if CommitError(row, t).Some? then (Failed(CommitError(row, t).value), doc)
                else if error.Some? then (Failed(error.value), Saved(doc, next, fault))
                else (Done(Reviewed(row.input, t.reviewed, revision), NewEvent(row, t, revision), recovered),
                      Saved(doc, next, fault)))
  {
    hide CommitDoc, NextRevision, PersistError, CommitError, Saved, Reviewed, NewEvent;
  }

  lemma ProceedsWhen(doc: Doc, req: Request)
    ensures (var existing := FindRow(doc.wals, req.input.outcome.key);
             Proceeds(doc, req)
             <==> && Validate(req.input).None?
                  && (existing.Some? ==> existing.value.canonical == req.canonical && existing.value.state.Prepared?))
  {
    hide Validate, PayloadText;
  }

  lemma ApplyReplies(doc: Doc, req: Request, t: Times, first: Fault, second: Fault)
    ensures (var existing := FindRow(doc.wals, req.input.outcome.key);
             && (Validate(req.input).Some? ==> Apply(doc, req, t, first, second).0 == Failed(Validate(req.input).value))
             && (Validate(req.input).None? && existing.Some? && existing.value.canonical != req.canonical ==>
                   Apply(doc, req, t, first, second).0 == Failed(IdempotencyConflict))
             && (Validate(req.input).None? && existing.Some? && existing.value.canonical == req.canonical
                 && existing.value.state.Committed? ==>
                   Apply(doc, req, t, first, second).0
                   == Reused(FindDraft(doc.drafts, req.input.outcome.key),
                             FindEvent(doc.events, EventId(req.input.outcome.key)))))
  {
    hide Validate, PayloadText, Commit, NewRow, FindDraft, FindEvent;
  }

  // ---------------------------------------------------------------- runs

  /** What a caller may do, and what storage may do to it. */
  datatype Step =
    | DoApply(heap: Graph, argument: Value, t: Times, first: Fault, second: Fault)
    | DoRecover(attempt: nat -> Attempt)

  ghost predicate LegalStep(step: Step) {
    step.DoApply? ==> Legal(step.heap, step.argument)
  }

  ghost function After(doc: Doc, step: Step): Doc
    requires LegalStep(step)
  {
    match step
    case DoApply(heap, argument, t, first, second) => Apply(doc, Asked(heap, argument), t, first, second).1
    case DoRecover(attempt) => Recover(doc, attempt).1
  }

  ghost function Run(doc: Doc, steps: seq<Step>): Doc
    requires forall i :: 0 <= i < |steps| ==> LegalStep(steps[i])
    decreases |steps|
  {
    hide After, LegalStep;
    if steps == [] then doc else Run(After(doc, steps[0]), steps[1..])
  }

  lemma EmptyIsFold()
    ensures Inv(EMPTY, [])
  {
  }

  lemma StepKeepsInv(doc: Doc, log: seq<Entry>, step: Step) returns (longer: seq<Entry>)
    requires Inv(doc, log) && LegalStep(step)
    ensures Inv(After(doc, step), longer) && log <= longer
  {
    hide *;
    AfterIs(doc, step);
    LegalIs(step);
    OneReply();
    match step
    case DoApply(heap, argument, t, first, second) =>
      LegalIsStorable(heap, argument);
      var req := Asked(heap, argument);
      ApplyStep(doc, log, req, t, first, second);
      ProceedsParts(doc, req, t);
      longer := if Apply(doc, req, t, first, second).0.Done?
                then log + [Entry(WorkRow(doc, req, t), t, false, false)] else log;
    case DoRecover(attempt) =>
      var pending := PreparedRows(doc.wals);
      RecoverStep(doc, log, attempt);
      RecoversExactlyParts(doc, log, pending, 0, attempt);
      longer := log + RecoveredLog(pending, 0, StopAt(pending, 0, attempt), attempt);
  }

  lemma AfterIs(doc: Doc, step: Step)
    requires LegalStep(step)
    ensures After(doc, step)
         == match step
            case DoApply(heap, argument, t, first, second) => Apply(doc, Asked(heap, argument), t, first, second).1
            case DoRecover(attempt) => Recover(doc, attempt).1
  {
    hide Apply, Recover, Asked, Legal;
  }

  lemma LegalIs(step: Step)
    ensures LegalStep(step) && step.DoApply? ==> Legal(step.heap, step.argument)
  {
    hide Legal;
  }

  lemma {:induction false} RunFrom(doc: Doc, log: seq<Entry>, steps: seq<Step>) returns (longer: seq<Entry>)
    requires Inv(doc, log) && forall i :: 0 <= i < |steps| ==> LegalStep(steps[i])
    ensures Inv(Run(doc, steps), longer) && log <= longer
    decreases |steps|
  {
    hide *;
    RunIs(doc, steps);
    longer := log;
    if steps != [] {
      longer := StepKeepsInv(doc, log, steps[0]);
      longer := RunFrom(After(doc, steps[0]), longer, steps[1..]);
    }
  }

  lemma RunIs(doc: Doc, steps: seq<Step>)
    requires forall i :: 0 <= i < |steps| ==> LegalStep(steps[i])
    ensures Run(doc, steps) == if steps == [] then doc else Run(After(doc, steps[0]), steps[1..])
  {
    hide After, LegalStep;
  }

  /**
   * After any run of calls, crashes and lost saves the document is the fold of some log of committed
   * outcomes: rows and log agree, events are one per outcome, and each proposal has one draft.
   */
  lemma EveryRunIsAFold(steps: seq<Step>) returns (log: seq<Entry>)
    requires forall i :: 0 <= i < |steps| ==> LegalStep(steps[i])
    ensures Inv(Run(EMPTY, steps), log)
    ensures DistinctProposals(Run(EMPTY, steps).drafts)
  {
    hide *;
    EmptyIsFold();
    log := RunFrom(EMPTY, [], steps);
    InvParts(Run(EMPTY, steps), log);
    OneDraftPerProposal(log);
  }
}
