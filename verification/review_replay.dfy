/** What a replayed call finds, and what a recovery does with requests that share objects with their draft. */
module ReviewReplay {
  import opened Json
  import opened Redaction
  import opened ReviewOutcome
  import opened ReviewLog
  import opened ReviewRequest
  import opened ReviewInvariant
  import opened ReviewSteps
  import opened ReviewRuns
  import opened ReviewCrash
  import opened ReviewRepository

  /** Rows keep their places, keys and payload texts; others may be added behind them. */
  predicate KeepsTexts(a: seq<Row>, b: seq<Row>) {
    |a| <= |b| && forall i :: 0 <= i < |a| ==> b[i].key == a[i].key && b[i].canonical == a[i].canonical
  }

  lemma KeepsTextsOn(a: seq<Row>, b: seq<Row>, c: seq<Row>)
    requires KeepsTexts(a, b) && KeepsTexts(b, c)
    ensures KeepsTexts(a, c)
  {
  }

  lemma IntentKeepsTexts(doc: Doc, req: Request, t: Times)
    ensures KeepsTexts(doc.wals, doc.wals) && KeepsTexts(doc.wals, Intended(doc, req, t).wals)
  {
    hide NewRow;
  }

  lemma KeptRowsKeepTexts(a: seq<Row>, b: seq<Row>, pending: seq<Row>, n: nat, m: nat)
    requires KeepsRows(a, b, pending, n, m)
    ensures KeepsTexts(a, b)
  {
    hide AmongKeys;
  }

  lemma ApplyKeepsTexts(doc: Doc, log: seq<Entry>, req: Request, t: Times, first: Fault, second: Fault)
    requires Inv(doc, log) && Storable(req)
    ensures KeepsTexts(doc.wals, Apply(doc, req, t, first, second).1.wals)
  {
    hide *;
    ApplyStep(doc, log, req, t, first, second);
    ProceedsParts(doc, req, t);
    IntentKeepsTexts(doc, req, t);
    var row, after := WorkRow(doc, req, t), Apply(doc, req, t, first, second).1;
    if after != doc && after != Intended(doc, req, t) {
      if FindRow(doc.wals, req.input.outcome.key).None? {
        PrepareKeepsInv(doc, log, req, t);
      }
      InvParts(Intended(doc, req, t), log);
      CommitLeavesOtherRows(Intended(doc, req, t), row, t, false, false, [row], 0);
      KeptRowsKeepTexts(Intended(doc, req, t).wals, after.wals, [row], 0, 1);
      KeepsTextsOn(doc.wals, Intended(doc, req, t).wals, after.wals);
    }
  }

  lemma StepKeepsTexts(doc: Doc, log: seq<Entry>, step: Step)
    requires Inv(doc, log) && LegalStep(step)
    ensures KeepsTexts(doc.wals, After(doc, step).wals)
  {
    hide *;
    AfterIs(doc, step);
    LegalIs(step);
    match step
    case DoApply(heap, argument, t, first, second) =>
      LegalIsStorable(heap, argument);
      ApplyKeepsTexts(doc, log, Asked(heap, argument), t, first, second);
    case DoRecover(attempt) =>
      var pending := PreparedRows(doc.wals);
      RecoverStep(doc, log, attempt);
      RecoversExactlyParts(doc, log, pending, 0, attempt);
      KeptRowsKeepTexts(doc.wals, After(doc, step).wals, pending, 0, StopAt(pending, 0, attempt));
  }

  lemma {:induction false} RunKeepsTexts(doc: Doc, log: seq<Entry>, steps: seq<Step>) returns (longer: seq<Entry>)
    requires Inv(doc, log) && forall i :: 0 <= i < |steps| ==> LegalStep(steps[i])
    ensures KeepsTexts(doc.wals, Run(doc, steps).wals) && Inv(Run(doc, steps), longer)
    decreases |steps|
  {
    hide *;
    RunIs(doc, steps);
    longer := log;
    SameRows(doc.wals);
    if steps != [] {
      StepKeepsTexts(doc, log, steps[0]);
      longer := StepKeepsInv(doc, log, steps[0]);
      longer := RunKeepsTexts(After(doc, steps[0]), longer, steps[1..]);
      KeepsTextsOn(doc.wals, After(doc, steps[0]).wals, Run(doc, steps).wals);
    }
  }

  lemma SameRows(rows: seq<Row>)
    ensures KeepsTexts(rows, rows)
  {
  }

  lemma TextFound(a: seq<Row>, b: seq<Row>, key: string)
    requires KeepsTexts(a, b) && UniqueRows(b) && FindRow(a, key).Some?
    ensures FindRow(b, key).Some? && FindRow(b, key).value.canonical == FindRow(a, key).value.canonical
  {
    var i :| 0 <= i < |a| && a[i] == FindRow(a, key).value;
    FindRowByIndex(b, i);
  }

  lemma ChecksReportNoConflict(input: Input)
    ensures Validate(input) != Some(IdempotencyConflict) && Validate(input) != Some(RecoveryConflict)
  {
    hide IsAIDraft, TouchesTrace;
  }

  lemma DraftCheckReportsNoConflict(d: Json)
    ensures DraftError(d) != Some(IdempotencyConflict) && DraftError(d) != Some(RecoveryConflict)
  {
    hide Get, PassingLines;
  }

  lemma CommitReportsNoConflict(doc: Doc, row: Row, t: Times, recovered: bool, shared: bool, fault: Fault)
    ensures Commit(doc, row, t, recovered, shared, fault).0 != Failed(IdempotencyConflict)
    ensures Commit(doc, row, t, recovered, shared, fault).0 != Failed(RecoveryConflict)
  {
    ChecksReportNoConflict(row.input);
    DraftCheckReportsNoConflict(Applied(row.input, t.reviewed));
    hide Validate, DraftError, Applied, CommitDoc, Saved, SameLengths, Reviewed, NewEvent, NextRevision;
  }

  /** The only way to a conflict is another payload text under the same key. */
  lemma ConflictNeedsOtherText(doc: Doc, req: Request, t: Times, first: Fault, second: Fault)
    requires FindRow(doc.wals, req.input.outcome.key).Some?
    requires FindRow(doc.wals, req.input.outcome.key).value.canonical == req.canonical
    ensures Apply(doc, req, t, first, second).0 != Failed(IdempotencyConflict)
  {
    hide Validate, Commit, FindDraft, FindEvent, NewRow, FindRow, PersistError;
    ChecksReportNoConflict(req.input);
    CommitReportsNoConflict(doc, FindRow(doc.wals, req.input.outcome.key).value, t, false, false, second);
  }

  /** What a first call that stored its intent leaves under its key. */
  lemma IntentLeavesText(doc: Doc, log: seq<Entry>, req: Request, t: Times, second: Fault)
    requires Inv(doc, log) && Storable(req) && Validate(req.input).None?
    requires FindRow(doc.wals, req.input.outcome.key).None?
    ensures (var found := FindRow(Apply(doc, req, t, Kept, second).1.wals, req.input.outcome.key);
             found.Some? && found.value.canonical == req.canonical)
  {
    hide *;
    FirstCallProceeds(doc, req);
    ApplyStep(doc, log, req, t, Kept, second);
    ProceedsParts(doc, req, t);
    KeptIs();
    NewRowParts(req, t);
    FindAppended(doc.wals, NewRow(req, t));
    PrepareKeepsInv(doc, log, req, t);
    var row, after := WorkRow(doc, req, t), Apply(doc, req, t, Kept, second).1;
    if after != Intended(doc, req, t) {
      InvParts(Intended(doc, req, t), log);
      CommitLeavesOtherRows(Intended(doc, req, t), row, t, false, false, [row], 0);
      KeptRowsKeepTexts(Intended(doc, req, t).wals, after.wals, [row], 0, 1);
      InvParts(after, log + [Entry(row, t, false, false)]);
      FollowsUnique(after.wals, log + [Entry(row, t, false, false)]);
      TextFound(Intended(doc, req, t).wals, after.wals, req.input.outcome.key);
    }
  }

  /**
   * Once a first call has stored its intent, the same call never reports a conflict again, after any run and
   * however the objects of its argument are shared: it compares the text of its own argument.
   */
  lemma ReplayNeverConflicts(doc: Doc, log: seq<Entry>, heap: Graph, argument: Value, t: Times, second: Fault,
                             later: seq<Step>, t': Times, first': Fault, second': Fault)
    requires Inv(doc, log) && Legal(heap, argument) && Validate(Asked(heap, argument).input).None?
    requires FindRow(doc.wals, Asked(heap, argument).input.outcome.key).None?
    requires forall i :: 0 <= i < |later| ==> LegalStep(later[i])
    ensures (var after := Apply(doc, Asked(heap, argument), t, Kept, second).1;
             Apply(Run(after, later), Asked(heap, argument), t', first', second').0 != Failed(IdempotencyConflict))
  {
    hide *;
    LegalIsStorable(heap, argument);
    var req := Asked(heap, argument);
    var after := Apply(doc, req, t, Kept, second).1;
    IntentLeavesText(doc, log, req, t, second);
    var now := ApplyKeepsInv(doc, log, req, t, Kept, second);
    var longer := RunKeepsTexts(after, now, later);
    InvParts(Run(after, later), longer);
    FollowsUnique(Run(after, later).wals, longer);
    TextFound(after.wals, Run(after, later).wals, req.input.outcome.key);
    ConflictNeedsOtherText(Run(after, later), req, t', first', second');
  }

  lemma ApplyKeepsInv(doc: Doc, log: seq<Entry>, req: Request, t: Times, first: Fault, second: Fault)
    returns (longer: seq<Entry>)
    requires Inv(doc, log) && Storable(req)
    ensures Inv(Apply(doc, req, t, first, second).1, longer)
  {
    hide *;
    OneReply();
    ApplyStep(doc, log, req, t, first, second);
    longer := if Apply(doc, req, t, first, second).0.Done?
              then log + [Entry(WorkRow(doc, req, t), t, false, false)] else log;
  }

  /**
   * A crash between the writes, then recovery: it reports a conflict and leaves the document as it is exactly when
   * payload and argument do not copy the same objects under the same parts; otherwise it commits what passes the checks.
   */
  lemma SharedRequestNotRecoveredIff(
    doc: Doc, log: seq<Entry>, heap: Graph, argument: Value, t0: Times, crash: Fault, t: Times)
    requires Inv(doc, log) && Legal(heap, argument) && Validate(Asked(heap, argument).input).None? && !crash.Kept?
    requires FindRow(doc.wals, Asked(heap, argument).input.outcome.key).None? && PreparedRows(doc.wals) == []
    ensures (var crashed := Apply(doc, Asked(heap, argument), t0, Kept, crash).1;
             var (replies, recovered) := Recover(crashed, _ => Attempt(t, Kept));
             && (CopiedAlike(heap, argument) ==>
                   (|replies| == 1 && replies[0].Done? <==> CommitError(NewRow(Asked(heap, argument), t0), t).None?))
             && (replies == [Failed(RecoveryConflict)] <==> !CopiedAlike(heap, argument))
             && (!CopiedAlike(heap, argument) ==> recovered == crashed))
  {
    hide *;
    var req := Asked(heap, argument);
    var row := NewRow(req, t0);
    LegalIsStorable(heap, argument);
    RequestIs(heap, argument);
    NoConflictIff(heap, argument, t0);
    AfterIntent(doc, log, req, t0, crash);
    var crashed := doc.(wals := doc.wals + [row]);
    NewRowParts(req, t0);
    OnlyThisRowPending(doc.wals, row);
    assert [] + [row] == [row];
    RecoverIs(crashed, _ => Attempt(t, Kept));
    RecoverUnfolds(crashed, [row], 0, _ => Attempt(t, Kept));
    KeptIs();
    OneReply();
    CommitStep(crashed, log, Entry(row, t, true, true), Kept);
    CommitReportsNoConflict(crashed, row, t, true, true, Kept);
    RecoverEnds(Commit(crashed, row, t, true, true, Kept).1, [row], _ => Attempt(t, Kept));
    assert row in crashed.wals by {
      assert crashed.wals[|doc.wals|] == row;
    }
  }
}
