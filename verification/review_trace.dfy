/** The read-only projection of the log, and what its evidence says about the newest outcome of a proposal. */
module ReviewTrace {
  import opened Json
  import opened ReviewOutcome
  import opened ReviewLog
  import opened ReviewInvariant
  import opened ReviewSteps
  import opened ReviewDrafts

  datatype RecoveryState = RecoveryRequired | Recovered | NotRequired

  datatype Trace = Trace(
    key: string, proposal: Json, draftId: Json, actor: string, decision: string, revision: nat,
    preparedAt: string, committedAt: string, recoveredAt: string, state: RowState, recovery: RecoveryState,
    canonical: string, eventId: Option<string>, postingStatus: Json, complete: bool)

  function TraceRow(doc: Doc, row: Row): Trace {
    var draft, event := FindDraft(doc.drafts, row.key), FindEvent(doc.events, EventId(row.key));
    var proposal := OrNull(ProposalId(row.input.draft));
    Trace(row.key, proposal, DraftId(row.input.draft), row.input.actor, row.input.outcome.decision, row.revision,
          row.createdAt, row.committedAt, row.recoveredAt, row.state,
          if row.state.Prepared? then RecoveryRequired else if row.recoveredAt != "" then Recovered else NotRequired,
          row.canonical, if event.Some? then Some(event.value.id) else None,
          if draft.Some? && Truthy(Get(draft.value, "posting_status")) then Get(draft.value, "posting_status")
          else OrNull(Get(row.input.draft, "posting_status")),
          && row.canonical != "" && Truthy(proposal) && row.input.actor != "" && row.input.outcome.decision != ""
          && row.state.Committed? && row.committedAt != "" && draft.Some? && event.Some?)
  }

  function TraceRows(doc: Doc, rows: seq<Row>): (r: seq<Trace>)
    ensures |r| == |rows| && forall i :: 0 <= i < |rows| ==> r[i] == TraceRow(doc, rows[i])
  {
    hide TraceRow;
    if rows == [] then [] else [TraceRow(doc, rows[0])] + TraceRows(doc, rows[1..])
  }

  /** buildAIReviewOutcomeTrace. */
  function BuildTrace(doc: Doc): seq<Trace> {
    hide TraceRow;
    TraceRows(doc, doc.wals)
  }

  // ---------------------------------------------------------------- complete evidence

  lemma StoredDraftIffNewest(doc: Doc, log: seq<Entry>, n: nat)
    requires Inv(doc, log) && n < |log|
    ensures FindDraft(doc.drafts, log[n].row.key).Some? <==> Newest(log, n)
    ensures Newest(log, n) ==> Get(FindDraft(doc.drafts, log[n].row.key).value, "posting_status") == Str("DRAFT")
  {
    hide *;
    var key := log[n].row.key;
    var found := FindDraft(doc.drafts, key);
    InvParts(doc, log);
    UniqueLogOf(doc.wals, log);
    if found.Some? {
      var m := DraftComesFromNewest(log, found.value);
      NewestIsIndex(log, m);
      DraftAtColumns(log, m);
      LogKeyUnique(log, m);
      LogKeyUnique(log, n);
    }
    if Newest(log, n) {
      NewestIsStored(log, n);
      DraftAtColumns(log, n);
      var i :| 0 <= i < |doc.drafts| && doc.drafts[i] == DraftAt(log, n);
      assert DraftOutcome(doc.drafts[i]) == Str(key);
    }
  }

  lemma UniqueLogOf(rows: seq<Row>, log: seq<Entry>)
    requires Follows(rows, log)
    ensures UniqueLog(log)
  {
    hide RowFollows;
  }

  lemma LoggedRow(doc: Doc, log: seq<Entry>, i: nat)
    requires Inv(doc, log) && i < |doc.wals|
    ensures (var n := LogIndex(log, doc.wals[i].key);
             && (n.Some? ==>
                   && doc.wals[i].state.Committed? && doc.wals[i].committedAt != ""
                   && doc.wals[i].revision == RevisionAt(log, n.value) && doc.wals[i].input == log[n.value].row.input)
             && (n.None? ==> doc.wals[i].state.Prepared?))
    ensures Sound(doc.wals[i]) && (doc.wals[i].state.Committed? ==> Validate(doc.wals[i].input).None?)
  {
    hide Sound, Validate, Count, ProposalId, CommitError, DraftsOf, EventsOf;
    assert RowFollows(log, doc.wals[i]);
    if LogIndex(log, doc.wals[i].key).Some? {
      var e := log[LogIndex(log, doc.wals[i].key).value];
      assert EntrySound(e);
      CommitErrorSplits(e.row, e.t);
    }
  }

  lemma LoggedEvent(doc: Doc, log: seq<Entry>, n: nat)
    requires Inv(doc, log) && n < |log|
    ensures HasEvent(doc.events, EventId(log[n].row.key))
  {
    hide Sound, CommitError, DraftsOf, Follows, RowsSound, ProposalId, Count;
    assert EntrySound(log[n]);
    EntryKey(log[n]);
    assert doc.events[n] == EventAt(log, n);
  }

  /** The row's outcome is committed and is the newest of its proposal. */
  predicate IsNewestOutcome(log: seq<Entry>, key: string) {
    LogIndex(log, key).Some? && Newest(log, LogIndex(log, key).value)
  }

  lemma NewestOutcomeIs(log: seq<Entry>, key: string)
    ensures IsNewestOutcome(log, key) <==> LogIndex(log, key).Some? && Newest(log, LogIndex(log, key).value)
  {
    hide Newest;
  }

  lemma TraceRowParts(doc: Doc, row: Row)
    ensures (var t, draft := TraceRow(doc, row), FindDraft(doc.drafts, row.key);
             && t.key == row.key && t.proposal == OrNull(ProposalId(row.input.draft))
             && t.decision == row.input.outcome.decision && t.revision == row.revision
             && (t.complete <==> row.canonical != "" && Truthy(t.proposal) && row.input.actor != ""
                                 && row.input.outcome.decision != "" && row.state.Committed? && row.committedAt != ""
                                 && draft.Some? && FindEvent(doc.events, EventId(row.key)).Some?)
             && (draft.Some? && Truthy(Get(draft.value, "posting_status")) ==>
                   t.postingStatus == Get(draft.value, "posting_status")))
  {
    hide FindDraft, FindEvent, OrNull, ProposalId, DraftId, Truthy, Get, EventId;
  }

  lemma TruthyStays(v: Json)
    ensures Truthy(v) ==> OrNull(v) == v
    ensures Truthy(Str("DRAFT"))
  {
  }

  lemma TraceRowIs(doc: Doc, row: Row)
    requires Sound(row) && (row.state.Committed? ==> Validate(row.input).None?)
    ensures (var t, draft := TraceRow(doc, row), FindDraft(doc.drafts, row.key);
             && t.key == row.key && (row.state.Committed? ==> t.proposal == ProposalId(row.input.draft))
             && t.decision == row.input.outcome.decision && t.revision == row.revision
             && (t.complete <==> row.state.Committed? && row.committedAt != "" && draft.Some?
                                 && FindEvent(doc.events, EventId(row.key)).Some?)
             && (draft.Some? && Get(draft.value, "posting_status") == Str("DRAFT") ==> t.postingStatus == Str("DRAFT")))
  {
    hide *;
    SoundText(row);
    TraceRowParts(doc, row);
    TruthyStays(ProposalId(row.input.draft));
    if row.state.Committed? {
      AcceptedRequestHasNames(row.input);
    }
  }

  lemma SoundText(row: Row)
    requires Sound(row)
    ensures row.canonical != ""
  {
    hide Validate, RedactInput, ProposalId;
  }

  lemma AcceptedRequestHasNames(input: Input)
    requires Validate(input).None?
    ensures input.actor != "" && input.outcome.decision != "" && Truthy(ProposalId(input.draft))
  {
    hide Get, TouchesTrace;
  }

  /** Evidence is complete for exactly one row per reviewed proposal: that of its newest outcome. */
  lemma CompleteIffNewest(doc: Doc, log: seq<Entry>, i: nat)
    requires Inv(doc, log) && i < |doc.wals|
    ensures (var t := BuildTrace(doc)[i];
             && (t.complete <==> IsNewestOutcome(log, doc.wals[i].key))
             && (t.complete ==> t.postingStatus == Str("DRAFT")))
  {
    hide *;
    var row := doc.wals[i];
    BuildTraceAt(doc, i);
    LoggedRow(doc, log, i);
    TraceRowIs(doc, row);
    NewestOutcomeIs(log, row.key);
    if LogIndex(log, row.key).Some? {
      var n := LogIndex(log, row.key).value;
      StoredDraftIffNewest(doc, log, n);
      LoggedEvent(doc, log, n);
    } else {
      PreparedIsNotCommitted(row);
    }
  }

  lemma PreparedIsNotCommitted(row: Row)
    ensures row.state.Prepared? ==> !row.state.Committed?
  {
  }

  lemma BuildTraceAt(doc: Doc, i: nat)
    requires i < |doc.wals|
    ensures |BuildTrace(doc)| == |doc.wals| && BuildTrace(doc)[i] == TraceRow(doc, doc.wals[i])
  {
    hide TraceRow;
  }

  // ---------------------------------------------------------------- approvals

  /** The decision of the newest committed outcome of a proposal. */
  function LatestDecision(log: seq<Entry>, proposal: Json): Option<string> {
    if log == [] then None
    else if StrictEqual(EntryProposal(log[|log| - 1]), proposal) then Some(log[|log| - 1].row.input.outcome.decision)
    else LatestDecision(log[..|log| - 1], proposal)
  }

  predicate Approves(t: Trace, proposal: Json) {
    t.proposal == proposal && t.decision == "APPROVE" && t.complete && t.postingStatus == Str("DRAFT")
  }

  function FindApproval(traces: seq<Trace>, proposal: Json): (r: Option<Trace>)
    ensures r.Some? ==> r.value in traces && Approves(r.value, proposal)
    ensures r.None? ==> forall i :: 0 <= i < |traces| ==> !Approves(traces[i], proposal)
  {
    if traces == [] then None
    else if Approves(traces[0], proposal) then Some(traces[0])
    else FindApproval(traces[1..], proposal)
  }

  /** The newest outcome of a proposal, if there is one, decides. */
  lemma {:induction false} LatestIsNewest(log: seq<Entry>, proposal: Json)
    requires Scalar(proposal) && Truthy(proposal)
    ensures LatestDecision(log, proposal).None? <==> Count(log, proposal) == 0
    ensures forall n :: 0 <= n < |log| && Newest(log, n) && EntryProposal(log[n]) == proposal ==>
              LatestDecision(log, proposal) == Some(log[n].row.input.outcome.decision)
    decreases |log|
  {
    hide EntryProposal, Newest, Count;
    NothingCounted(log, proposal);
    if log != [] {
      LatestIsNewest(log[..|log| - 1], proposal);
      CountSplit(log, proposal);
      forall n | 0 <= n < |log| && Newest(log, n) && EntryProposal(log[n]) == proposal
        ensures LatestDecision(log, proposal) == Some(log[n].row.input.outcome.decision)
      {
        NewestSplit(log, n);
        if n < |log| - 1 {
          PrefixAt(log, n);
        }
      }
    }
  }

  lemma NothingCounted(log: seq<Entry>, proposal: Json)
    ensures log == [] ==> Count(log, proposal) == 0
  {
  }

  lemma TracedOutcome(doc: Doc, log: seq<Entry>, i: nat, proposal: Json)
    requires Inv(doc, log) && i < |doc.wals| && Scalar(proposal) && Truthy(proposal) && Approves(BuildTrace(doc)[i], proposal)
    ensures LatestDecision(log, proposal) == Some("APPROVE")
    ensures BuildTrace(doc)[i].revision == Count(log, proposal)
  {
    hide *;
    CompleteIffNewest(doc, log, i);
    BuildTraceAt(doc, i);
    ApprovesParts(BuildTrace(doc)[i], proposal);
    LoggedRow(doc, log, i);
    TraceRowIs(doc, doc.wals[i]);
    NewestOutcomeIs(log, doc.wals[i].key);
    EntryProposalIs(log, LogIndex(log, doc.wals[i].key).value);
    NewestCount(log, LogIndex(log, doc.wals[i].key).value);
    LatestIsNewest(log, proposal);
  }

  lemma ApprovesParts(t: Trace, proposal: Json)
    ensures Approves(t, proposal)
       <==> t.proposal == proposal && t.decision == "APPROVE" && t.complete && t.postingStatus == Str("DRAFT")
  {
  }

  lemma EntryProposalIs(log: seq<Entry>, n: nat)
    requires n < |log|
    ensures EntryProposal(log[n]) == ProposalId(log[n].row.input.draft)
  {
    hide ProposalId;
  }

  lemma NewestCount(log: seq<Entry>, n: nat)
    requires Newest(log, n)
    ensures n < |log| && RevisionAt(log, n) == Count(log, EntryProposal(log[n]))
  {
    hide EntryProposal, Count;
  }

  lemma ApprovedOutcomeIsTraced(doc: Doc, log: seq<Entry>, proposal: Json)
    requires Inv(doc, log) && Scalar(proposal) && Truthy(proposal) && LatestDecision(log, proposal) == Some("APPROVE")
    ensures exists i :: 0 <= i < |BuildTrace(doc)| && Approves(BuildTrace(doc)[i], proposal)
  {
    hide *;
    LatestIsNewest(log, proposal);
    var n := NewestOf(log, proposal);
    InvParts(doc, log);
    UniqueLogOf(doc.wals, log);
    LogKeyUnique(log, n);
    NewestFrom(log, n, proposal);
    EntryHasRow(doc.wals, log, n);
    var i :| 0 <= i < |doc.wals| && doc.wals[i].key == log[n].row.key;
    CompleteIffNewest(doc, log, i);
    BuildTraceAt(doc, i);
    LoggedRow(doc, log, i);
    TraceRowIs(doc, doc.wals[i]);
    NewestOutcomeIs(log, doc.wals[i].key);
    EntryProposalIs(log, n);
    ApprovesParts(BuildTrace(doc)[i], proposal);
  }

  lemma NewestFrom(log: seq<Entry>, n: nat, proposal: Json)
    requires n < |log| && StrictEqual(EntryProposal(log[n]), proposal) && RevisionAt(log, n) == Count(log, proposal)
    ensures Newest(log, n) && EntryProposal(log[n]) == proposal
  {
    hide EntryProposal, Count;
  }

  lemma EntryHasRow(rows: seq<Row>, log: seq<Entry>, n: nat)
    requires Follows(rows, log) && n < |log|
    ensures exists i :: 0 <= i < |rows| && rows[i].key == log[n].row.key
  {
    hide RowFollows;
    assert HasRow(rows, log[n].row.key);
  }

  /**
   * The projection shows an approval of a proposal exactly when the newest committed outcome for it is
   * APPROVE: a later REJECT or EDIT revokes it. The revision shown counts the proposal's outcomes.
   */
  lemma ApprovalIffLatest(doc: Doc, log: seq<Entry>, proposal: Json)
    requires Inv(doc, log) && Scalar(proposal) && Truthy(proposal)
    ensures FindApproval(BuildTrace(doc), proposal).Some? <==> LatestDecision(log, proposal) == Some("APPROVE")
    ensures FindApproval(BuildTrace(doc), proposal).Some? ==>
              FindApproval(BuildTrace(doc), proposal).value.revision == Count(log, proposal)
  {
    hide *;
    var found := FindApproval(BuildTrace(doc), proposal);
    if found.Some? {
      var i :| 0 <= i < |BuildTrace(doc)| && BuildTrace(doc)[i] == found.value;
      TraceLength(doc);
      TracedOutcome(doc, log, i, proposal);
    }
    if LatestDecision(log, proposal) == Some("APPROVE") {
      ApprovedOutcomeIsTraced(doc, log, proposal);
    }
  }

  lemma TraceLength(doc: Doc)
    ensures |BuildTrace(doc)| == |doc.wals|
  {
    hide TraceRow;
  }
}
