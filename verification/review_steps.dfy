/** Every write of the review-outcome log keeps the invariant, and no swallowed write goes unnoticed. */
module ReviewSteps {
  import opened Json
  import opened Redaction
  import opened ReviewOutcome
  import opened ReviewLog
  import opened ReviewInvariant

  // ---------------------------------------------------------------- the rows

  lemma PendingIsUnlogged(rows: seq<Row>, log: seq<Entry>, row: Row)
    requires Follows(rows, log) && row in rows && row.state.Prepared?
    ensures LogIndex(log, row.key).None? && Pending(row)
  {
    var i :| 0 <= i < |rows| && rows[i] == row;
    assert RowFollows(log, rows[i]);
  }

  lemma OtherRowFollows(log: seq<Entry>, e: Entry, r: Row)
    requires RowFollows(log, r) && r.key != e.row.key
    ensures RowFollows(log + [e], r)
  {
    AppendLast(log, e);
    if LogIndex(log, r.key).Some? {
      AppendKeeps(log, e, LogIndex(log, r.key).value);
    }
  }

  lemma CommittedRowFollows(log: seq<Entry>, e: Entry, revision: nat)
    requires revision == Count(log, EntryProposal(e)) + 1
    ensures RowFollows(log + [e], MarkCommitted(e.row, revision, e.t.committed, e.recovered))
  {
    AppendLast(log, e);
  }

  lemma AppendedLogIsUnique(rows: seq<Row>, log: seq<Entry>, e: Entry)
    requires UniqueLog(log) && LogIndex(log, e.row.key).None?
    ensures UniqueLog(log + [e])
  {
  }

  lemma EveryEntryHasRow(rows: seq<Row>, marked: seq<Row>, log: seq<Entry>, e: Entry)
    requires |marked| == |rows| && forall i :: 0 <= i < |rows| ==> marked[i].key == rows[i].key
    requires HasRow(rows, e.row.key) && forall n :: 0 <= n < |log| ==> HasRow(rows, log[n].row.key)
    ensures forall n :: 0 <= n < |log + [e]| ==> HasRow(marked, (log + [e])[n].row.key)
  {
    forall n | 0 <= n < |log + [e]|
      ensures HasRow(marked, (log + [e])[n].row.key)
    {
      assert HasRow(rows, (log + [e])[n].row.key);
      var i :| 0 <= i < |rows| && rows[i].key == (log + [e])[n].row.key;
      assert marked[i].key == (log + [e])[n].row.key;
    }
  }

  lemma FollowsParts(rows: seq<Row>, log: seq<Entry>)
    ensures Follows(rows, log)
       <==> && UniqueRows(rows) && UniqueLog(log)
            && (forall i :: 0 <= i < |rows| ==> RowFollows(log, rows[i]))
            && forall n :: 0 <= n < |log| ==> HasRow(rows, log[n].row.key)
  {
    hide UniqueRows, UniqueLog, RowFollows, HasRow;
  }

  lemma MarkedRow(rows: seq<Row>, key: string, revision: nat, at: string, recovered: bool, i: nat)
    requires i < |rows|
    ensures (var marked := MarkRows(rows, key, revision, at, recovered);
             marked[i].key == rows[i].key
             && marked[i] == if rows[i].key == key then MarkCommitted(rows[i], revision, at, recovered) else rows[i])
  {
    hide MarkRows;
  }

  lemma SameKeySameRow(rows: seq<Row>, row: Row, i: nat)
    requires UniqueRows(rows) && row in rows && i < |rows| && rows[i].key == row.key
    ensures rows[i] == row
  {
  }

  lemma SameKeysUnique(rows: seq<Row>, marked: seq<Row>)
    requires UniqueRows(rows) && |marked| == |rows| && forall i :: 0 <= i < |rows| ==> marked[i].key == rows[i].key
    ensures UniqueRows(marked)
  {
  }

  lemma CommitFollows(rows: seq<Row>, log: seq<Entry>, e: Entry, revision: nat)
    requires Follows(rows, log) && e.row in rows && e.row.state.Prepared?
    requires revision == Count(log, EntryProposal(e)) + 1
    ensures Follows(MarkRows(rows, e.row.key, revision, e.t.committed, e.recovered), log + [e])
  {
    hide *;
    PendingIsUnlogged(rows, log, e.row);
    FollowsParts(rows, log);
    AppendedLogIsUnique(rows, log, e);
    var marked := MarkRows(rows, e.row.key, revision, e.t.committed, e.recovered);
    forall i | 0 <= i < |rows|
      ensures marked[i].key == rows[i].key && RowFollows(log + [e], marked[i])
    {
      MarkedRow(rows, e.row.key, revision, e.t.committed, e.recovered, i);
      if rows[i].key == e.row.key {
        SameKeySameRow(rows, e.row, i);
        CommittedRowFollows(log, e, revision);
      } else {
        OtherRowFollows(log, e, rows[i]);
      }
    }
    SameKeysUnique(rows, marked);
    RowIsThere(rows, e.row);
    EveryEntryHasRow(rows, marked, log, e);
    FollowsParts(marked, log + [e]);
  }

  lemma RowIsThere(rows: seq<Row>, row: Row)
    requires row in rows
    ensures HasRow(rows, row.key)
  {
    var k :| 0 <= k < |rows| && rows[k] == row;
    assert rows[k].key == row.key;
  }

  lemma MarkedRowsSound(rows: seq<Row>, key: string, revision: nat, at: string, recovered: bool)
    requires RowsSound(rows)
    ensures RowsSound(MarkRows(rows, key, revision, at, recovered))
    ensures RedactRows(MarkRows(rows, key, revision, at, recovered)) == MarkRows(rows, key, revision, at, recovered)
  {
    var marked := MarkRows(rows, key, revision, at, recovered);
    forall i | 0 <= i < |rows|
      ensures Sound(marked[i]) && RedactRows(marked)[i] == marked[i]
    {
      assert Sound(rows[i]);
    }
  }

  // ---------------------------------------------------------------- the drafts and events

  lemma {:induction false} OtherDraftsSubset(ds: seq<Json>, proposal: Json)
    ensures forall d :: d in OtherDrafts(ds, proposal) <==> d in ds && !StrictEqual(ProposalId(d), proposal)
  {
    if ds != [] {
      OtherDraftsSubset(ds[1..], proposal);
      assert ds == [ds[0]] + ds[1..];
    }
  }

  lemma {:induction false} FoldedDraftsFixed(log: seq<Entry>)
    ensures forall d :: d in DraftsOf(log) ==> Redact(d) == d
  {
    if log != [] {
      FoldedDraftsFixed(log[..|log| - 1]);
      OtherDraftsSubset(DraftsOf(log[..|log| - 1]), EntryProposal(log[|log| - 1]));
      RedactIdempotent(WrittenDraft(log[|log| - 1].row, log[|log| - 1].t, RevisionAt(log, |log| - 1), log[|log| - 1].shared));
    }
  }

  lemma RedactDraftsAppend(kept: seq<Json>, d: Json)
    requires forall x :: x in kept ==> Redact(x) == x
    ensures RedactDrafts(kept + [d]) == kept + [Redact(d)]
  {
    forall i | 0 <= i < |kept|
      ensures RedactDrafts(kept + [d])[i] == kept[i]
    {
      assert kept[i] in kept;
    }
  }

  lemma CommitDrafts(log: seq<Entry>, e: Entry, revision: nat)
    requires revision == Count(log, EntryProposal(e)) + 1
    ensures RedactDrafts(OtherDrafts(DraftsOf(log), EntryProposal(e)) + [WrittenDraft(e.row, e.t, revision, e.shared)])
         == DraftsOf(log + [e])
  {
    AppendLast(log, e);
    FoldedDraftsFixed(log);
    OtherDraftsSubset(DraftsOf(log), EntryProposal(e));
    RedactDraftsAppend(OtherDrafts(DraftsOf(log), EntryProposal(e)), WrittenDraft(e.row, e.t, revision, e.shared));
  }

  lemma EventIdInjective(a: string, b: string)
    ensures EventId(a) == EventId(b) ==> a == b
  {
    assert a == EventId(a)[18..] && b == EventId(b)[18..];
  }

  /** A pending row has no event yet. */
  lemma PendingHasNoEvent(log: seq<Entry>, key: string)
    requires LogSound(log) && LogIndex(log, key).None?
    ensures !HasEvent(EventsOf(log), EventId(key))
  {
    hide EntrySound, Count, EventId;
    forall n | 0 <= n < |log|
      ensures EventsOf(log)[n].id != EventId(key)
    {
      EntryKey(log[n]);
      EventIdInjective(log[n].row.key, key);
    }
  }

  lemma EntryKey(e: Entry)
    requires EntrySound(e)
    ensures e.row.input.outcome.key == e.row.key
  {
    hide Validate, DraftError, Applied, RedactInput, ProposalId;
    CommitErrorSplits(e.row, e.t);
  }

  // ---------------------------------------------------------------- the commit write

  lemma InvParts(doc: Doc, log: seq<Entry>)
    ensures Inv(doc, log)
       <==> Follows(doc.wals, log) && RowsSound(doc.wals) && LogSound(log)
            && doc.drafts == DraftsOf(log) && doc.events == EventsOf(log)
  {
  }

  lemma CommitDocParts(doc: Doc, e: Entry)
    ensures var next, revision := CommitDoc(doc, e.row, e.t, e.recovered, e.shared), NextRevision(doc, e.row);
            && revision == PriorRevision(doc.wals, EntryProposal(e)) + 1
            && next.wals == MarkRows(doc.wals, e.row.key, revision, e.t.committed, e.recovered)
            && next.drafts == OtherDrafts(doc.drafts, EntryProposal(e)) + [WrittenDraft(e.row, e.t, revision, e.shared)]
            && (!HasEvent(doc.events, EventId(e.row.input.outcome.key)) ==>
                  next.events == doc.events + [NewEvent(e.row, e.t, revision)])
            && RedactDoc(next) == Doc(RedactRows(next.wals), RedactDrafts(next.drafts), next.events)
  {
  }

  /** One commit moves the document to the fold of the longer log. */
  lemma CommitKeepsInv(doc: Doc, log: seq<Entry>, e: Entry)
    requires Inv(doc, log) && e.row in doc.wals && e.row.state.Prepared? && CommitError(e.row, e.t).None?
    ensures Inv(RedactDoc(CommitDoc(doc, e.row, e.t, e.recovered, e.shared)), log + [e])
    ensures |CommitDoc(doc, e.row, e.t, e.recovered, e.shared).events| == |doc.events| + 1
    ensures NextRevision(doc, e.row) == Count(log, EntryProposal(e)) + 1
  {
    hide *;
    var next, revision := CommitDoc(doc, e.row, e.t, e.recovered, e.shared), NextRevision(doc, e.row);
    InvParts(doc, log);
    CommitDocParts(doc, e);
    PriorRevisionIsCount(doc.wals, log, EntryProposal(e));
    PendingIsUnlogged(doc.wals, log, e.row);
    CommitErrorSplits(e.row, e.t);
    RowIsSound(doc.wals, e.row);
    PendingHasNoEvent(log, e.row.key);
    CommitFollows(doc.wals, log, e, revision);
    MarkedRowsSound(doc.wals, e.row.key, revision, e.t.committed, e.recovered);
    CommitDrafts(log, e, revision);
    AppendLast(log, e);
    AppendSound(log, e);
    InvParts(RedactDoc(next), log + [e]);
  }

  lemma CommitErrorSplits(row: Row, t: Times)
    ensures CommitError(row, t).None? <==> Validate(row.input).None? && DraftError(Applied(row.input, t.reviewed)).None?
  {
    hide Validate, DraftError, Applied;
  }

  lemma RowIsSound(rows: seq<Row>, row: Row)
    requires RowsSound(rows) && row in rows
    ensures Sound(row) && (Validate(row.input).None? ==> row.key == row.input.outcome.key)
  {
    var i :| 0 <= i < |rows| && rows[i] == row;
    assert Sound(rows[i]);
  }

  lemma AppendSound(log: seq<Entry>, e: Entry)
    requires LogSound(log) && Sound(e.row) && CommitError(e.row, e.t).None?
    ensures LogSound(log + [e])
  {
    assert EntrySound(e);
  }

  /** The commit write: kept, it is the fold of one more outcome; otherwise nothing changed and the caller is told. */
  lemma CommitStep(doc: Doc, log: seq<Entry>, e: Entry, fault: Fault)
    requires Inv(doc, log) && e.row in doc.wals && e.row.state.Prepared?
    ensures var (reply, after) := Commit(doc, e.row, e.t, e.recovered, e.shared, fault);
            if CommitError(e.row, e.t).Some? || !fault.Kept? then reply.Failed? && after == doc
            else reply.Done? && after == RedactDoc(CommitDoc(doc, e.row, e.t, e.recovered, e.shared)) && Inv(after, log + [e])
  {
    hide Inv, Follows, CommitDoc, RedactRows, RedactDrafts, Sound, RowsSound, LogSound, EntrySound, DraftsOf, EventsOf,
      WrittenDraft, NewEvent, CommitError, Count, PriorRevision;
    if CommitError(e.row, e.t).None? {
      CommitKeepsInv(doc, log, e);
    }
  }

  // ---------------------------------------------------------------- the intent write

  lemma InvRowsFixed(rows: seq<Row>)
    requires RowsSound(rows)
    ensures RedactRows(rows) == rows
  {
    forall i | 0 <= i < |rows|
      ensures RedactRows(rows)[i] == rows[i]
    {
      assert Sound(rows[i]);
    }
  }

  lemma NewRowSound(req: Request, t: Times)
    requires Validate(req.input).None? && Storable(req)
    ensures Sound(NewRow(req, t)) && Pending(NewRow(req, t))
  {
    hide Validate, RedactInput, ProposalId;
  }

  /** Writing the intent of a new key changes nothing but the rows, and lengthens them. */
  lemma PrepareKeepsInv(doc: Doc, log: seq<Entry>, req: Request, t: Times)
    requires Inv(doc, log) && Validate(req.input).None? && Storable(req)
    requires FindRow(doc.wals, req.input.outcome.key).None?
    ensures var next := doc.(wals := doc.wals + [NewRow(req, t)]);
            RedactDoc(next) == next && Inv(next, log)
  {
    hide Follows, Sound, RowsSound, LogSound, EntrySound, DraftsOf, EventsOf, WrittenDraft, NewEvent, CommitError, Count,
      PriorRevision;
    hide Validate, NewRow;
    NewRowSound(req, t);
    NewRowKey(req, t);
    var rows := doc.wals + [NewRow(req, t)];
    AppendRowSound(doc.wals, NewRow(req, t));
    InvRowsFixed(rows);
    FoldedDraftsFixed(log);
    DraftsFixed(doc.drafts);
    PrepareFollows(doc.wals, log, NewRow(req, t));
  }

  lemma NewRowKey(req: Request, t: Times)
    ensures NewRow(req, t).key == req.input.outcome.key && NewRow(req, t).state.Prepared?
  {
  }

  lemma AppendRowSound(rows: seq<Row>, row: Row)
    requires RowsSound(rows) && Sound(row)
    ensures RowsSound(rows + [row])
  {
  }

  lemma DraftsFixed(ds: seq<Json>)
    requires forall d :: d in ds ==> Redact(d) == d
    ensures RedactDrafts(ds) == ds
  {
    forall i | 0 <= i < |ds|
      ensures RedactDrafts(ds)[i] == ds[i]
    {
      assert ds[i] in ds;
    }
  }

  lemma PrepareFollows(rows: seq<Row>, log: seq<Entry>, row: Row)
    requires Follows(rows, log) && Pending(row) && forall i :: 0 <= i < |rows| ==> rows[i].key != row.key
    ensures Follows(rows + [row], log)
  {
    forall n | 0 <= n < |log|
      ensures log[n].row.key != row.key
    {
      assert HasRow(rows, log[n].row.key);
    }
    forall n | 0 <= n < |log|
      ensures HasRow(rows + [row], log[n].row.key)
    {
      assert HasRow(rows, log[n].row.key);
      var i :| 0 <= i < |rows| && rows[i].key == log[n].row.key;
      assert (rows + [row])[i].key == log[n].row.key;
    }
  }
}
