/**
 * The invariant of the review-outcome log: the stored document is a fold of the outcomes committed so far.
 */
module ReviewInvariant {
  import opened Json
  import opened Redaction
  import opened ReviewOutcome
  import opened ReviewLog

  /** One committed outcome, in commit order. */
  datatype Entry = Entry(row: Row, t: Times, recovered: bool, shared: bool)

  function EntryProposal(e: Entry): Json {
    ProposalId(e.row.input.draft)
  }

  /** How many of the outcomes are for this proposal. */
  function Count(log: seq<Entry>, proposal: Json): nat {
    if log == [] then 0
    else Count(log[..|log| - 1], proposal) + if StrictEqual(EntryProposal(log[|log| - 1]), proposal) then 1 else 0
  }

  /** The place of an outcome among those of its own proposal, counted from one. */
  function RevisionAt(log: seq<Entry>, n: nat): nat
    requires n < |log|
  {
    Count(log[..n], EntryProposal(log[n])) + 1
  }

  function DraftAt(log: seq<Entry>, n: nat): Json
    requires n < |log|
  {
    Redact(WrittenDraft(log[n].row, log[n].t, RevisionAt(log, n), log[n].shared))
  }

  function EventAt(log: seq<Entry>, n: nat): Event
    requires n < |log|
  {
    NewEvent(log[n].row, log[n].t, RevisionAt(log, n))
  }

  function RowAt(log: seq<Entry>, n: nat): Row
    requires n < |log|
  {
    MarkCommitted(log[n].row, RevisionAt(log, n), log[n].t.committed, log[n].recovered)
  }

  /** Each outcome replaces the draft of its own proposal and moves it to the end. */
  function DraftsOf(log: seq<Entry>): seq<Json> {
    if log == [] then []
    else
      OtherDrafts(DraftsOf(log[..|log| - 1]), EntryProposal(log[|log| - 1])) + [DraftAt(log, |log| - 1)]
  }

  function EventsOf(log: seq<Entry>): (r: seq<Event>)
    ensures |r| == |log|
    ensures forall n :: 0 <= n < |log| ==> r[n] == EventAt(log, n)
  {
    if log == [] then []
    else
      var rest := EventsOf(log[..|log| - 1]);
      assert forall n :: 0 <= n < |log| - 1 ==> log[..|log| - 1][..n] == log[..n];
      rest + [EventAt(log, |log| - 1)]
  }

  function LogIndex(log: seq<Entry>, key: string): (r: Option<nat>)
    ensures r.Some? ==> r.value < |log| && log[r.value].row.key == key
    ensures r.None? ==> forall n :: 0 <= n < |log| ==> log[n].row.key != key
  {
    if log == [] then None
    else if log[|log| - 1].row.key == key then Some(|log| - 1)
    else LogIndex(log[..|log| - 1], key)
  }

  /** What holds of a row from the moment it is prepared. */
  predicate Sound(r: Row) {
    && r.canonical != ""
    && RedactInput(r.input) == r.input
    && (Validate(r.input).None? ==> r.key == r.input.outcome.key && Scalar(ProposalId(r.input.draft)))
  }

  predicate Pending(r: Row) {
    r.state.Prepared? && r.revision == 0 && r.committedAt == "" && r.recoveredAt == ""
  }

  predicate UniqueRows(rows: seq<Row>) {
    forall i, j :: 0 <= i < j < |rows| ==> rows[i].key != rows[j].key
  }

  predicate UniqueLog(log: seq<Entry>) {
    forall m, n :: 0 <= m < n < |log| ==> log[m].row.key != log[n].row.key
  }

  predicate HasRow(rows: seq<Row>, key: string) {
    exists i :: 0 <= i < |rows| && rows[i].key == key
  }

  /** A row is pending and unlogged, or it is its log entry's row, committed. */
  predicate RowFollows(log: seq<Entry>, r: Row) {
    var n := LogIndex(log, r.key);
    if n.Some? then r == RowAt(log, n.value) else Pending(r)
  }

  /** Rows and log entries correspond one to one, pending rows aside. */
  predicate Follows(rows: seq<Row>, log: seq<Entry>) {
    && UniqueRows(rows)
    && UniqueLog(log)
    && (forall i :: 0 <= i < |rows| ==> RowFollows(log, rows[i]))
    && (forall n :: 0 <= n < |log| ==> HasRow(rows, log[n].row.key))
  }

  predicate RowsSound(rows: seq<Row>) {
    forall i :: 0 <= i < |rows| ==> Sound(rows[i])
  }

  predicate EntrySound(e: Entry) {
    Sound(e.row) && CommitError(e.row, e.t).None?
  }

  predicate LogSound(log: seq<Entry>) {
    forall n :: 0 <= n < |log| ==> EntrySound(log[n])
  }

  /** The document is the fold of the log; only the pending rows are not determined by it. */
  predicate Inv(doc: Doc, log: seq<Entry>) {
    && Follows(doc.wals, log)
    && RowsSound(doc.wals)
    && LogSound(log)
    && doc.drafts == DraftsOf(log)
    && doc.events == EventsOf(log)
  }

  // ---------------------------------------------------------------- a log and one more outcome

  lemma AppendKeeps(log: seq<Entry>, e: Entry, n: nat)
    requires n < |log|
    ensures (log + [e])[n] == log[n]
    ensures RevisionAt(log + [e], n) == RevisionAt(log, n)
    ensures RowAt(log + [e], n) == RowAt(log, n)
    ensures EventAt(log + [e], n) == EventAt(log, n)
  {
    assert (log + [e])[..n] == log[..n];
  }

  lemma AppendLast(log: seq<Entry>, e: Entry)
    ensures (log + [e])[..|log|] == log && (log + [e])[|log|] == e
    ensures RevisionAt(log + [e], |log|) == Count(log, EntryProposal(e)) + 1
    ensures DraftsOf(log + [e])
         == OtherDrafts(DraftsOf(log), EntryProposal(e))
            + [Redact(WrittenDraft(e.row, e.t, Count(log, EntryProposal(e)) + 1, e.shared))]
    ensures EventsOf(log + [e]) == EventsOf(log) + [NewEvent(e.row, e.t, Count(log, EntryProposal(e)) + 1)]
    ensures forall key :: LogIndex(log + [e], key) == if e.row.key == key then Some(|log|) else LogIndex(log, key)
  {
    assert (log + [e])[..|log|] == log;
  }

  lemma {:induction false} CountGrows(log: seq<Entry>, n: nat, proposal: Json)
    requires n <= |log|
    ensures Count(log[..n], proposal) <= Count(log, proposal)
    ensures n < |log| && StrictEqual(EntryProposal(log[n]), proposal)
        ==> Count(log[..n], proposal) < Count(log, proposal)
    decreases |log|
  {
    if n == |log| {
      assert log[..n] == log;
    } else {
      var pre := log[..|log| - 1];
      CountGrows(pre, n, proposal);
      assert pre[..n] == log[..n];
    }
  }

  /** The newest outcome of a proposal carries the full count. */
  lemma {:induction false} NewestOf(log: seq<Entry>, proposal: Json) returns (n: nat)
    requires Count(log, proposal) > 0
    ensures n < |log| && StrictEqual(EntryProposal(log[n]), proposal)
    ensures RevisionAt(log, n) == Count(log, proposal)
  {
    var last := |log| - 1;
    if StrictEqual(EntryProposal(log[last]), proposal) {
      n := last;
    } else {
      n := NewestOf(log[..last], proposal);
      assert log[..last][..n] == log[..n];
    }
  }

  predicate CountedRow(r: Row, proposal: Json) {
    r.state.Committed? && StrictEqual(ProposalId(r.input.draft), proposal)
  }

  lemma {:induction false} PriorRevisionIsMax(rows: seq<Row>, proposal: Json)
    ensures forall i :: 0 <= i < |rows| && CountedRow(rows[i], proposal) ==> rows[i].revision <= PriorRevision(rows, proposal)
    ensures PriorRevision(rows, proposal) > 0 ==>
              exists i :: 0 <= i < |rows| && CountedRow(rows[i], proposal) && rows[i].revision == PriorRevision(rows, proposal)
  {
    if rows != [] {
      PriorRevisionIsMax(rows[1..], proposal);
      if PriorRevision(rows, proposal) > 0 && PriorRevision(rows, proposal) == PriorRevision(rows[1..], proposal) {
        var i :| 0 <= i < |rows[1..]| && CountedRow(rows[1..][i], proposal)
                 && rows[1..][i].revision == PriorRevision(rows[1..], proposal);
        assert rows[i + 1] == rows[1..][i];
      }
    }
  }

  lemma {:induction false} LogKeyUnique(log: seq<Entry>, n: nat)
    requires UniqueLog(log) && n < |log|
    ensures LogIndex(log, log[n].row.key) == Some(n)
  {
    var m := LogIndex(log, log[n].row.key);
    assert m.Some?;
  }

  /** The revision that the source reads off the committed rows counts the committed outcomes. */
  lemma PriorRevisionIsCount(rows: seq<Row>, log: seq<Entry>, proposal: Json)
    requires Follows(rows, log)
    ensures PriorRevision(rows, proposal) == Count(log, proposal)
  {
    var prior := PriorRevision(rows, proposal);
    PriorRevisionIsMax(rows, proposal);
    if prior > 0 {
      var i :| 0 <= i < |rows| && CountedRow(rows[i], proposal) && rows[i].revision == prior;
      assert RowFollows(log, rows[i]);
      CountGrows(log, LogIndex(log, rows[i].key).value, proposal);
    }
    if Count(log, proposal) > 0 {
      var n := NewestOf(log, proposal);
      assert HasRow(rows, log[n].row.key);
      var i :| 0 <= i < |rows| && rows[i].key == log[n].row.key;
      assert RowFollows(log, rows[i]);
      LogKeyUnique(log, n);
    }
  }
}
