/** Whole calls and whole runs of the review-outcome repository. */
module ReviewRuns {
  import opened Redaction
  import opened ReviewOutcome
  import opened ReviewLog
  import opened ReviewInvariant
  import opened ReviewSteps

  // ---------------------------------------------------------------- one call of apply

  /** The row that a call of apply works on. */
  function WorkRow(doc: Doc, req: Request, t: Times): Row {
    var existing := FindRow(doc.wals, req.input.outcome.key);
    if existing.Some? then existing.value else NewRow(req, t)
  }

  function Intended(doc: Doc, req: Request, t: Times): Doc {
    if FindRow(doc.wals, req.input.outcome.key).Some? then doc else doc.(wals := doc.wals + [NewRow(req, t)])
  }

  /** Neither refused nor a replay of a committed outcome. */
  predicate Proceeds(doc: Doc, req: Request) {
    var existing := FindRow(doc.wals, req.input.outcome.key);
    && Validate(req.input).None?
    && (existing.Some? ==> existing.value.canonical == req.canonical && existing.value.state.Prepared?)
  }

  lemma ApplyUnfolds(doc: Doc, req: Request, t: Times, first: Fault, second: Fault)
    ensures !Proceeds(doc, req) ==>
              Apply(doc, req, t, first, second).1 == doc && !Apply(doc, req, t, first, second).0.Done?
    ensures Proceeds(doc, req) && FindRow(doc.wals, req.input.outcome.key).Some? ==>
              Apply(doc, req, t, first, second) == Commit(doc, WorkRow(doc, req, t), t, false, false, second)
    ensures Proceeds(doc, req) && FindRow(doc.wals, req.input.outcome.key).None? ==>
              (var next, error := Intended(doc, req, t), PersistError(doc, Intended(doc, req, t), first);
               Apply(doc, req, t, first, second)
               == if error.Some? then (Failed(error.value), Saved(doc, next, first))
                  else Commit(Saved(doc, next, first), NewRow(req, t), t, false, false, second))
  {
    hide Validate, PayloadText, Commit, NewRow, PersistError, Saved;
  }

  lemma IntentSaved(doc: Doc, next: Doc, fault: Fault)
    requires RedactDoc(next) == next && |next.wals| == |doc.wals| + 1
    ensures Saved(doc, next, fault) == if fault.Kept? then next else doc
    ensures PersistError(doc, next, fault).None? <==> fault.Kept?
  {
  }

  /**
   * One call of apply, with every fate of its two saves. The length-only read-back misses no lost save:
   * a call reports success only when both of the writes that it needed were kept, and a lost write leaves
   * the document as that write found it.
   */
  lemma ApplyStep(doc: Doc, log: seq<Entry>, req: Request, t: Times, first: Fault, second: Fault)
    requires Inv(doc, log) && Storable(req)
    ensures var (reply, after) := Apply(doc, req, t, first, second);
            var row := WorkRow(doc, req, t);
            if !Proceeds(doc, req) then !reply.Done? && after == doc
            else if FindRow(doc.wals, req.input.outcome.key).None? && !first.Kept? then reply.Failed? && after == doc
            else if CommitError(row, t).Some? || !second.Kept? then
              reply.Failed? && after == Intended(doc, req, t) && Inv(after, log)
            else reply.Done? && Inv(after, log + [Entry(row, t, false, false)])
                 && after == RedactDoc(CommitDoc(Intended(doc, req, t), row, t, false, false))
  {
    hide *;
    ApplyUnfolds(doc, req, t, first, second);
    ProceedsParts(doc, req, t);
    if Proceeds(doc, req) {
      var row := WorkRow(doc, req, t);
      if FindRow(doc.wals, req.input.outcome.key).None? {
        PrepareKeepsInv(doc, log, req, t);
        IntentSaved(doc, Intended(doc, req, t), first);
      }
      if FindRow(doc.wals, req.input.outcome.key).Some? || first.Kept? {
        CommitStep(Intended(doc, req, t), log, Entry(row, t, false, false), second);
      }
    }
  }

  lemma ProceedsParts(doc: Doc, req: Request, t: Times)
    ensures Proceeds(doc, req) ==> Validate(req.input).None?
    ensures Proceeds(doc, req) ==>
              WorkRow(doc, req, t) in Intended(doc, req, t).wals && WorkRow(doc, req, t).state.Prepared?
    ensures FindRow(doc.wals, req.input.outcome.key).Some? ==>
              Intended(doc, req, t) == doc && WorkRow(doc, req, t) == FindRow(doc.wals, req.input.outcome.key).value
    ensures FindRow(doc.wals, req.input.outcome.key).None? ==>
              WorkRow(doc, req, t) == NewRow(req, t)
              && Intended(doc, req, t) == doc.(wals := doc.wals + [NewRow(req, t)])
              && |Intended(doc, req, t).wals| == |doc.wals| + 1
  {
    hide Validate, PayloadText, RedactInput;
    if FindRow(doc.wals, req.input.outcome.key).None? {
      assert (doc.wals + [NewRow(req, t)])[|doc.wals|] == NewRow(req, t);
    }
  }

  // ---------------------------------------------------------------- one call of recover

  predicate Stops(row: Row, a: Attempt) {
    RecoveryError(row).Some? || CommitError(row, a.t).Some? || !a.fault.Kept?
  }

  /** The first pending row that cannot be committed, or the end. */
  function StopAt(pending: seq<Row>, n: nat, attempt: nat -> Attempt): (m: nat)
    requires n <= |pending|
    ensures n <= m <= |pending|
    decreases |pending| - n
  {
    hide Stops;
    if n == |pending| || Stops(pending[n], attempt(n)) then n else StopAt(pending, n + 1, attempt)
  }

  lemma {:induction false} StopAtIsFirst(pending: seq<Row>, n: nat, attempt: nat -> Attempt)
    requires n <= |pending|
    ensures forall i :: n <= i < StopAt(pending, n, attempt) ==> !Stops(pending[i], attempt(i))
    ensures StopAt(pending, n, attempt) < |pending| ==>
              Stops(pending[StopAt(pending, n, attempt)], attempt(StopAt(pending, n, attempt)))
    decreases |pending| - n
  {
    hide Stops;
    if n < |pending| && !Stops(pending[n], attempt(n)) {
      StopAtIsFirst(pending, n + 1, attempt);
    }
  }

  function RecoveredEntry(pending: seq<Row>, n: nat, attempt: nat -> Attempt): Entry
    requires n < |pending|
  {
    Entry(pending[n], attempt(n).t, true, n == 0)
  }

  function RecoveredLog(pending: seq<Row>, n: nat, m: nat, attempt: nat -> Attempt): (r: seq<Entry>)
    requires n <= m <= |pending|
    ensures |r| == m - n && forall i :: 0 <= i < m - n ==> r[i] == RecoveredEntry(pending, n + i, attempt)
    decreases m - n
  {
    if n == m then [] else [RecoveredEntry(pending, n, attempt)] + RecoveredLog(pending, n + 1, m, attempt)
  }

  /** The rows still to recover are rows of the document. */
  predicate StillPending(rows: seq<Row>, pending: seq<Row>, n: nat) {
    && (forall i :: n <= i < |pending| ==> pending[i] in rows && pending[i].state.Prepared?)
    && (forall i, j :: n <= i < j < |pending| ==> pending[i].key != pending[j].key)
  }

  predicate AmongKeys(pending: seq<Row>, n: nat, m: nat, key: string) {
    exists i :: n <= i < m && i < |pending| && pending[i].key == key
  }

  lemma {:induction false} PreparedRowsExact(rows: seq<Row>)
    requires UniqueRows(rows)
    ensures StillPending(rows, PreparedRows(rows), 0)
    ensures forall r :: r in rows && r.state.Prepared? ==> r in PreparedRows(rows)
  {
    if rows != [] {
      PreparedRowsExact(rows[1..]);
      var rest := PreparedRows(rows[1..]);
      assert rows == [rows[0]] + rows[1..];
      forall j | 0 <= j < |rest|
        ensures rest[j].key != rows[0].key
      {
        assert rest[j] in rows[1..];
      }
    }
  }

  /** Rows keep their places, keys and payload texts, and those outside the recovered range do not change at all. */
  predicate KeepsRows(before: seq<Row>, after: seq<Row>, pending: seq<Row>, n: nat, m: nat) {
    |after| == |before|
    && forall i :: 0 <= i < |before| ==>
         && after[i].key == before[i].key && after[i].canonical == before[i].canonical
         && (AmongKeys(pending, n, m, before[i].key) || after[i] == before[i])
  }

  /** One success per recovered row, then at most one failure. */
  predicate RepliesUpTo(replies: seq<Reply>, done: nat, failed: bool) {
    && |replies| == done + (if failed then 1 else 0)
    && (forall i :: 0 <= i < done ==> replies[i].Done?)
    && (failed ==> replies[done].Failed?)
  }

  lemma CommitLeavesOtherRows(doc: Doc, row: Row, t: Times, recovered: bool, shared: bool, pending: seq<Row>, n: nat)
    requires RowsSound(doc.wals) && n < |pending| && pending[n] == row
    ensures KeepsRows(doc.wals, RedactDoc(CommitDoc(doc, row, t, recovered, shared)).wals, pending, n, n + 1)
  {
    hide RowsSound, Redact, ProposalId, WrittenDraft, NewEvent;
    MarkedRowsSound(doc.wals, row.key, NextRevision(doc, row), t.committed, recovered);
    var after := RedactDoc(CommitDoc(doc, row, t, recovered, shared)).wals;
    forall i | 0 <= i < |doc.wals|
      ensures after[i].key == doc.wals[i].key
      ensures AmongKeys(pending, n, n + 1, doc.wals[i].key) || after[i] == doc.wals[i]
    {
    }
  }

  lemma KeepsRowsCompose(a: seq<Row>, b: seq<Row>, c: seq<Row>, pending: seq<Row>, n: nat, m: nat)
    requires n < m <= |pending| && KeepsRows(a, b, pending, n, n + 1) && KeepsRows(b, c, pending, n + 1, m)
    ensures KeepsRows(a, c, pending, n, m)
  {
  }

  lemma RowsStayPending(before: seq<Row>, after: seq<Row>, pending: seq<Row>, n: nat)
    requires n < |pending| && StillPending(before, pending, n) && KeepsRows(before, after, pending, n, n + 1)
    ensures StillPending(after, pending, n + 1)
  {
    forall i | n + 1 <= i < |pending|
      ensures pending[i] in after
    {
      var k :| 0 <= k < |before| && before[k] == pending[i];
      assert after[k] == before[k];
    }
  }

  lemma PendingRow(rows: seq<Row>, pending: seq<Row>, n: nat)
    requires StillPending(rows, pending, n) && n < |pending|
    ensures pending[n] in rows && pending[n].state.Prepared?
  {
  }

  lemma RecoverUnfolds(doc: Doc, pending: seq<Row>, n: nat, attempt: nat -> Attempt)
    requires n < |pending|
    ensures RecoveryError(pending[n]).Some? ==>
              RecoverRows(doc, pending, n, attempt) == ([Failed(RecoveryConflict)], doc)
    ensures RecoveryError(pending[n]).None? ==>
            (var step := Commit(doc, pending[n], attempt(n).t, true, n == 0, attempt(n).fault);
             RecoverRows(doc, pending, n, attempt)
             == if step.0.Failed? then ([step.0], step.1)
                else var rest := RecoverRows(step.1, pending, n + 1, attempt); ([step.0] + rest.0, rest.1))
  {
    hide Commit, RecoveryError;
  }

  lemma StopAtUnfolds(pending: seq<Row>, n: nat, attempt: nat -> Attempt)
    requires n <= |pending|
    ensures n < |pending| && !Stops(pending[n], attempt(n)) ==>
              n < StopAt(pending, n, attempt) == StopAt(pending, n + 1, attempt)
    ensures n == |pending| || Stops(pending[n], attempt(n)) ==> StopAt(pending, n, attempt) == n
  {
    hide Stops;
  }

  lemma StopsParts(row: Row, a: Attempt)
    ensures Stops(row, a) <==> RecoveryError(row).Some? || CommitError(row, a.t).Some? || !a.fault.Kept?
  {
  }

  lemma RepliesExtend(reply: Reply, rest: seq<Reply>, done: nat, failed: bool)
    requires reply.Done? && RepliesUpTo(rest, done, failed)
    ensures RepliesUpTo([reply] + rest, done + 1, failed)
  {
  }

  lemma NothingRecovered(doc: Doc, log: seq<Entry>, pending: seq<Row>, n: nat, attempt: nat -> Attempt)
    requires Inv(doc, log) && n <= |pending|
    ensures Inv(doc, log + RecoveredLog(pending, n, n, attempt)) && KeepsRows(doc.wals, doc.wals, pending, n, n)
    ensures RepliesUpTo([], 0, false) && forall r: Reply :: r.Failed? ==> RepliesUpTo([r], 0, true)
    ensures RecoverRows(doc, pending, |pending|, attempt) == ([], doc)
  {
    hide Inv;
    assert log + [] == log;
  }

  lemma LogExtends(log: seq<Entry>, pending: seq<Row>, n: nat, m: nat, attempt: nat -> Attempt)
    requires n < m <= |pending|
    ensures (log + [RecoveredEntry(pending, n, attempt)]) + RecoveredLog(pending, n + 1, m, attempt)
         == log + RecoveredLog(pending, n, m, attempt)
  {
  }

  /** What the recovery loop does from its n-th row on. */
  predicate RecoversExactly(doc: Doc, log: seq<Entry>, pending: seq<Row>, n: nat, attempt: nat -> Attempt)
    requires n <= |pending|
  {
    var m, result := StopAt(pending, n, attempt), RecoverRows(doc, pending, n, attempt);
    && Inv(result.1, log + RecoveredLog(pending, n, m, attempt))
    && RepliesUpTo(result.0, m - n, m < |pending|)
    && KeepsRows(doc.wals, result.1.wals, pending, n, m)
  }

  lemma RecoversExactlyParts(doc: Doc, log: seq<Entry>, pending: seq<Row>, n: nat, attempt: nat -> Attempt)
    requires n <= |pending|
    ensures (var m, result := StopAt(pending, n, attempt), RecoverRows(doc, pending, n, attempt);
             RecoversExactly(doc, log, pending, n, attempt)
             <==> && Inv(result.1, log + RecoveredLog(pending, n, m, attempt))
                  && RepliesUpTo(result.0, m - n, m < |pending|)
                  && KeepsRows(doc.wals, result.1.wals, pending, n, m))
  {
    hide Inv, RecoverRows, StopAt;
  }

  lemma {:induction false} RecoverRowsStep(doc: Doc, log: seq<Entry>, pending: seq<Row>, n: nat, attempt: nat -> Attempt)
    requires Inv(doc, log) && n <= |pending| && StillPending(doc.wals, pending, n)
    ensures RecoversExactly(doc, log, pending, n, attempt)
    decreases |pending| - n
  {
    hide *;
    RecoversExactlyParts(doc, log, pending, n, attempt);
    StopAtUnfolds(pending, n, attempt);
    NothingRecovered(doc, log, pending, n, attempt);
    if n < |pending| {
      var e, a := RecoveredEntry(pending, n, attempt), attempt(n);
      assert e == Entry(pending[n], a.t, true, n == 0) by { RecoveredEntryIs(pending, n, attempt); }
      InvParts(doc, log);
      PendingRow(doc.wals, pending, n);
      RecoverUnfolds(doc, pending, n, attempt);
      CommitStep(doc, log, e, a.fault);
      StopsParts(pending[n], a);
      if !Stops(pending[n], a) {
        var next, m := RedactDoc(CommitDoc(doc, e.row, e.t, true, n == 0)), StopAt(pending, n, attempt);
        CommitLeavesOtherRows(doc, e.row, e.t, true, n == 0, pending, n);
        RowsStayPending(doc.wals, next.wals, pending, n);
        RecoverRowsStep(next, log + [e], pending, n + 1, attempt);
        RecoversExactlyParts(next, log + [e], pending, n + 1, attempt);
        LogExtends(log, pending, n, m, attempt);
        RepliesExtend(Commit(doc, pending[n], a.t, true, n == 0, a.fault).0,
                      RecoverRows(next, pending, n + 1, attempt).0, m - n - 1, m < |pending|);
        KeepsRowsCompose(doc.wals, next.wals, RecoverRows(next, pending, n + 1, attempt).1.wals, pending, n, m);
      }
    }
  }

  lemma RecoveredEntryIs(pending: seq<Row>, n: nat, attempt: nat -> Attempt)
    requires n < |pending|
    ensures RecoveredEntry(pending, n, attempt) == Entry(pending[n], attempt(n).t, true, n == 0)
  {
  }

  /**
   * Recovery commits, in list order, exactly the pending rows before the first that fails, and leaves every
   * other row as it was; the document is again the fold of the longer log.
   */
  lemma RecoverStep(doc: Doc, log: seq<Entry>, attempt: nat -> Attempt)
    requires Inv(doc, log)
    ensures RecoversExactly(doc, log, PreparedRows(doc.wals), 0, attempt)
    ensures Recover(doc, attempt) == RecoverRows(doc, PreparedRows(doc.wals), 0, attempt)
  {
    hide *;
    InvParts(doc, log);
    FollowsUnique(doc.wals, log);
    PreparedRowsExact(doc.wals);
    RecoverRowsStep(doc, log, PreparedRows(doc.wals), 0, attempt);
    RecoverIs(doc, attempt);
  }

  lemma RecoverIs(doc: Doc, attempt: nat -> Attempt)
    ensures Recover(doc, attempt) == RecoverRows(doc, PreparedRows(doc.wals), 0, attempt)
  {
    hide RecoverRows;
  }

  lemma FollowsUnique(rows: seq<Row>, log: seq<Entry>)
    requires Follows(rows, log)
    ensures UniqueRows(rows)
  {
    hide RowFollows;
  }

  lemma LoggedIsCommitted(rows: seq<Row>, log: seq<Entry>, i: nat, n: nat)
    requires Follows(rows, log) && i < |rows| && n < |log| && rows[i].key == log[n].row.key
    ensures rows[i].state.Committed?
  {
    assert RowFollows(log, rows[i]);
  }

  lemma KeptOrAmong(before: seq<Row>, after: seq<Row>, pending: seq<Row>, i: nat)
    requires KeepsRows(before, after, pending, 0, |pending|) && i < |before|
    ensures |after| == |before| && after[i].key == before[i].key
    ensures after[i] == before[i] || exists k :: 0 <= k < |pending| && pending[k].key == before[i].key
  {
  }

  lemma RecoveredRowCommitted(
    before: seq<Row>, after: seq<Row>, log: seq<Entry>, pending: seq<Row>, attempt: nat -> Attempt, i: nat)
    requires Follows(after, log + RecoveredLog(pending, 0, |pending|, attempt)) && i < |before|
    requires KeepsRows(before, after, pending, 0, |pending|)
    requires forall r :: r in before && r.state.Prepared? ==> r in pending
    ensures |after| == |before| && after[i].state.Committed?
  {
    hide *;
    KeptOrAmong(before, after, pending, i);
    assert before[i] in before;
    if before[i] in pending || after[i] != before[i] {
      var k :| 0 <= k < |pending| && pending[k].key == before[i].key;
      RecoveredKey(log, pending, attempt, k);
      LoggedIsCommitted(after, log + RecoveredLog(pending, 0, |pending|, attempt), i, |log| + k);
    }
  }

  lemma RecoveredKey(log: seq<Entry>, pending: seq<Row>, attempt: nat -> Attempt, k: nat)
    requires k < |pending|
    ensures |log + RecoveredLog(pending, 0, |pending|, attempt)| == |log| + |pending|
    ensures (log + RecoveredLog(pending, 0, |pending|, attempt))[|log| + k].row.key == pending[k].key
  {
  }

  /** When no pending row conflicts or is refused and no save is lost, nothing stays pending. */
  lemma RecoverClearsTheLog(doc: Doc, log: seq<Entry>, attempt: nat -> Attempt)
    requires Inv(doc, log) && StopAt(PreparedRows(doc.wals), 0, attempt) == |PreparedRows(doc.wals)|
    ensures forall i :: 0 <= i < |Recover(doc, attempt).1.wals| ==> Recover(doc, attempt).1.wals[i].state.Committed?
  {
    hide *;
    var pending, after := PreparedRows(doc.wals), Recover(doc, attempt).1;
    InvParts(doc, log);
    FollowsUnique(doc.wals, log);
    PreparedRowsExact(doc.wals);
    RecoverStep(doc, log, attempt);
    RecoversExactlyParts(doc, log, pending, 0, attempt);
    InvParts(after, log + RecoveredLog(pending, 0, |pending|, attempt));
    forall i | 0 <= i < |after.wals|
      ensures after.wals[i].state.Committed?
    {
      KeepsRowsLength(doc.wals, after.wals, pending);
      RecoveredRowCommitted(doc.wals, after.wals, log, pending, attempt, i);
    }
  }

  lemma KeepsRowsLength(before: seq<Row>, after: seq<Row>, pending: seq<Row>)
    requires KeepsRows(before, after, pending, 0, |pending|)
    ensures |after| == |before|
  {
  }

  lemma UnchangedRow(before: seq<Row>, after: seq<Row>, pending: seq<Row>, m: nat, j: nat)
    requires KeepsRows(before, after, pending, 0, m) && StillPending(before, pending, 0) && m <= j < |pending|
    ensures pending[j] in after
  {
    var i :| 0 <= i < |before| && before[i] == pending[j];
    assert !AmongKeys(pending, 0, m, before[i].key);
    assert after[i] == before[i];
  }

  /**
   * A pending row whose draft is refused, as an unbalanced EDIT is, or whose payload reads back differently blocks
   * recovery: it and every row behind it stay in the log as they are, whatever else the recovery commits.
   */
  lemma BlockedRowStopsRecovery(doc: Doc, log: seq<Entry>, attempt: nat -> Attempt, k: nat, j: nat)
    requires Inv(doc, log) && k <= j < |PreparedRows(doc.wals)|
    requires RecoveryError(PreparedRows(doc.wals)[k]).Some? || CommitError(PreparedRows(doc.wals)[k], attempt(k).t).Some?
    ensures PreparedRows(doc.wals)[j] in Recover(doc, attempt).1.wals
    ensures |Recover(doc, attempt).0| <= k + 1 && Recover(doc, attempt).0 != []
    ensures Recover(doc, attempt).0[|Recover(doc, attempt).0| - 1].Failed?
  {
    hide *;
    var pending := PreparedRows(doc.wals);
    InvParts(doc, log);
    FollowsUnique(doc.wals, log);
    PreparedRowsExact(doc.wals);
    RecoverStep(doc, log, attempt);
    RecoversExactlyParts(doc, log, pending, 0, attempt);
    StopAtIsFirst(pending, 0, attempt);
    StopsParts(pending[k], attempt(k));
    var m := StopAt(pending, 0, attempt);
    assert m <= k;
    UnchangedRow(doc.wals, Recover(doc, attempt).1.wals, pending, m, j);
    RepliesParts(Recover(doc, attempt).0, m, m < |pending|);
  }

  lemma RepliesParts(replies: seq<Reply>, done: nat, failed: bool)
    requires RepliesUpTo(replies, done, failed) && failed
    ensures |replies| == done + 1 && replies[done].Failed?
  {
  }
}
