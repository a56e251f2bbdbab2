/**
 * The review-outcome write-ahead log as a state machine over one stored document: what apply and recover
 * leave in storage when a save is kept, silently dropped, or thrown away by a crash.
 */
module ReviewLog {
  import opened Json
  import opened Redaction
  import opened Secrets
  import opened ReviewOutcome

  /** A clock reading, which is never the empty text. */
  type Instant = s: string | s != "" witness "1970-01-01T00:00:00.000Z"

  datatype RowState = Prepared | Committed

  /** One log row; a time not yet recorded is the empty text, a revision not yet given is zero. */
  datatype Row = Row(
    key: string, canonical: string, state: RowState, input: Input, revision: nat,
    createdAt: Instant, committedAt: string, recoveredAt: string)

  datatype Event = Event(id: string, kind: string, actor: string, decision: string, key: string, revision: nat, at: string)

  datatype Doc = Doc(wals: seq<Row>, drafts: seq<Json>, events: seq<Event>)

  const EMPTY := Doc([], [], [])

  /** The clock readings of one call. */
  datatype Times = Times(created: Instant, reviewed: Instant, occurred: Instant, committed: Instant)

  /** What storage does with one save: keep it, swallow it, or throw before writing. */
  datatype Fault = Kept | Dropped | Thrown

  datatype Reply =
    | Done(draft: Json, event: Event, recovered: bool)
    | Reused(priorDraft: Option<Json>, priorEvent: Option<Event>)
    | Failed(error: Error)

  function EventId(key: string): string {
    "AI-REVIEW-OUTCOME:" + key
  }

  function DraftOutcome(d: Json): Json {
    Get(d, "ai_review_outcome_id")
  }

  // ---------------------------------------------------------------- writing and reading back

  function RedactDrafts(ds: seq<Json>): (r: seq<Json>)
    ensures |r| == |ds|
    ensures forall i :: 0 <= i < |ds| ==> r[i] == Redact(ds[i])
  {
    if ds == [] then [] else [Redact(ds[0])] + RedactDrafts(ds[1..])
  }

  function RedactRows(rows: seq<Row>): (r: seq<Row>)
    ensures |r| == |rows|
    ensures forall i :: 0 <= i < |rows| ==> r[i] == rows[i].(input := RedactInput(rows[i].input))
  {
    if rows == [] then [] else [rows[0].(input := RedactInput(rows[0].input))] + RedactRows(rows[1..])
  }

  /** redactSecrets on a whole document in which no node occurs twice. */
  function RedactDoc(doc: Doc): Doc {
    Doc(RedactRows(doc.wals), RedactDrafts(doc.drafts), doc.events)
  }

  function Saved(before: Doc, next: Doc, fault: Fault): Doc {
    if fault.Kept? then RedactDoc(next) else before
  }

  /** The read-back compares only lengths. */
  predicate SameLengths(a: Doc, b: Doc) {
    |a.wals| == |b.wals| && |a.drafts| == |b.drafts| && |a.events| == |b.events|
  }

  function PersistError(before: Doc, next: Doc, fault: Fault): Option<Error> {
    if fault.Thrown? then Some(StorageThrew)
    else if !SameLengths(Saved(before, next, fault), next) then Some(NotConfirmed)
    else None
  }

  // ---------------------------------------------------------------- committing one row

  function FindRow(rows: seq<Row>, key: string): (r: Option<Row>)
    ensures r.Some? ==> r.value in rows && r.value.key == key
    ensures r.None? ==> forall i :: 0 <= i < |rows| ==> rows[i].key != key
  {
    if rows == [] then None else if rows[0].key == key then Some(rows[0]) else FindRow(rows[1..], key)
  }

  /** The largest revision among the committed rows of a proposal. */
  function PriorRevision(rows: seq<Row>, proposal: Json): nat {
    if rows == [] then 0
    else
      var rest := PriorRevision(rows[1..], proposal);
      if rows[0].state.Committed? && StrictEqual(ProposalId(rows[0].input.draft), proposal) && rows[0].revision > rest
      then rows[0].revision else rest
  }

  function OtherDrafts(ds: seq<Json>, proposal: Json): seq<Json> {
    if ds == [] then []
    else (if StrictEqual(ProposalId(ds[0]), proposal) then [] else [ds[0]]) + OtherDrafts(ds[1..], proposal)
  }

  predicate HasEvent(events: seq<Event>, id: string) {
    exists i :: 0 <= i < |events| && events[i].id == id
  }

  function MarkCommitted(row: Row, revision: nat, at: string, recovered: bool): Row {
    row.(state := Committed, revision := revision, committedAt := at,
         recoveredAt := if recovered then at else row.recoveredAt)
  }

  function MarkRows(rows: seq<Row>, key: string, revision: nat, at: string, recovered: bool): (r: seq<Row>)
    ensures |r| == |rows|
    ensures forall i :: 0 <= i < |rows| ==>
      r[i] == if rows[i].key == key then MarkCommitted(rows[i], revision, at, recovered) else rows[i]
  {
    if rows == [] then []
    else [if rows[0].key == key then MarkCommitted(rows[0], revision, at, recovered) else rows[0]]
         + MarkRows(rows[1..], key, revision, at, recovered)
  }

  function CommitError(row: Row, t: Times): Option<Error> {
    if Validate(row.input).Some? then Validate(row.input) else DraftError(Applied(row.input, t.reviewed))
  }

  function NewEvent(row: Row, t: Times, revision: nat): Event {
    Event(EventId(row.input.outcome.key), "AI_REVIEW_" + row.input.outcome.decision, row.input.actor,
          row.input.outcome.decision, row.input.outcome.key, revision, t.occurred)
  }

  function NextRevision(doc: Doc, row: Row): nat {
    PriorRevision(doc.wals, ProposalId(row.input.draft)) + 1
  }

  /** What redaction makes of a value whose node the same call has met before. */
  function Met(v: Json): Json {
    if Scalar(v) then v else Str(CIRCULAR)
  }

  function MetItems(vs: seq<Json>): (r: seq<Json>)
    ensures |r| == |vs|
    ensures forall i :: 0 <= i < |vs| ==> r[i] == Met(vs[i])
  {
    if vs == [] then [] else [Met(vs[0])] + MetItems(vs[1..])
  }

  /** What one member of the draft becomes; the reviewed draft's history array is its own. */
  function MetMember(m: Member<Json>): Json {
    if m.key == "history" && m.value.Arr? then Arr(MetItems(m.value.items)) else Met(m.value)
  }

  function MetMembers(ms: seq<Member<Json>>): (r: seq<Member<Json>>)
    ensures |r| == |ms| && forall i :: 0 <= i < |ms| ==> r[i] == Member(ms[i].key, MetMember(ms[i]))
  {
    if ms == [] then [] else [Member(ms[0].key, MetMember(ms[0]))] + MetMembers(ms[1..])
  }

  /** The draft of a request whose nodes were met in the log: the copied history array is new, its entries are not. */
  function MetDraft(input: Input): Input {
    input.(draft := if input.draft.Obj? then Obj(MetMembers(input.draft.members)) else input.draft)
  }

  /**
   * The draft that a commit writes. `shared` tells that the row is a row of the document being written,
   * so that the draft's own members are nodes which the write meets in the log first.
   */
  function WrittenDraft(row: Row, t: Times, revision: nat, shared: bool): Json {
    Reviewed(if shared then MetDraft(row.input) else row.input, t.reviewed, revision)
  }

  /** The document that a commit writes. */
  function CommitDoc(doc: Doc, row: Row, t: Times, recovered: bool, shared: bool): Doc {
    var revision := NextRevision(doc, row);
    var event := NewEvent(row, t, revision);
    Doc(MarkRows(doc.wals, row.key, revision, t.committed, recovered),
        OtherDrafts(doc.drafts, ProposalId(row.input.draft)) + [WrittenDraft(row, t, revision, shared)],
        if HasEvent(doc.events, event.id) then doc.events else doc.events + [event])
  }

  function Commit(doc: Doc, row: Row, t: Times, recovered: bool, shared: bool, fault: Fault): (Reply, Doc) {
    if CommitError(row, t).Some? then (Failed(CommitError(row, t).value), doc)
    else
      var next := CommitDoc(doc, row, t, recovered, shared);
      var revision := NextRevision(doc, row);
      if PersistError(doc, next, fault).Some? then (Failed(PersistError(doc, next, fault).value), Saved(doc, next, fault))
      else (Done(Reviewed(row.input, t.reviewed, revision), NewEvent(row, t, revision), recovered), Saved(doc, next, fault))
  }

  // ---------------------------------------------------------------- apply

  function NewRow(req: Request, t: Times): Row {
    Row(req.input.outcome.key, req.canonical, Prepared, req.stored, 0, t.created, "", "")
  }

  function FindDraft(ds: seq<Json>, key: string): (r: Option<Json>)
    ensures r.Some? ==> r.value in ds && DraftOutcome(r.value) == Str(key)
    ensures r.None? ==> forall i :: 0 <= i < |ds| ==> DraftOutcome(ds[i]) != Str(key)
  {
    if ds == [] then None else if DraftOutcome(ds[0]) == Str(key) then Some(ds[0]) else FindDraft(ds[1..], key)
  }

  function FindEvent(events: seq<Event>, id: string): (r: Option<Event>)
    ensures r.Some? ==> r.value in events && r.value.id == id
    ensures r.None? ==> !HasEvent(events, id)
  {
    if events == [] then None else if events[0].id == id then Some(events[0]) else FindEvent(events[1..], id)
  }

  /** One call of apply; `first` and `second` are the fates of the intent write and of the commit write. */
  function Apply(doc: Doc, req: Request, t: Times, first: Fault, second: Fault): (Reply, Doc) {
    if Validate(req.input).Some? then (Failed(Validate(req.input).value), doc)
    else
      var existing := FindRow(doc.wals, req.input.outcome.key);
      if existing.Some? && existing.value.canonical != req.canonical then (Failed(IdempotencyConflict), doc)
      else if existing.Some? && existing.value.state.Committed? then
        (Reused(FindDraft(doc.drafts, req.input.outcome.key), FindEvent(doc.events, EventId(req.input.outcome.key))), doc)
      else if existing.Some? then Commit(doc, existing.value, t, false, false, second)
      else
        var next := doc.(wals := doc.wals + [NewRow(req, t)]);
        if PersistError(doc, next, first).Some? then (Failed(PersistError(doc, next, first).value), Saved(doc, next, first))
        else Commit(Saved(doc, next, first), NewRow(req, t), t, false, false, second)
  }

  // ---------------------------------------------------------------- recover

  function PreparedRows(rows: seq<Row>): (r: seq<Row>)
    ensures forall i :: 0 <= i < |r| ==> r[i] in rows && r[i].state.Prepared?
  {
    if rows == [] then []
    else (if rows[0].state.Prepared? then [rows[0]] else []) + PreparedRows(rows[1..])
  }

  /** One attempt of the recovery loop: its clock and the fate of its save. */
  datatype Attempt = Attempt(t: Times, fault: Fault)

  function RecoveryError(row: Row): Option<Error> {
    if row.canonical == "" || row.canonical != PayloadText(row.input) then Some(RecoveryConflict) else None
  }

  /**
   * The recovery loop over the rows that were prepared when it started. Only the first of them is a row
   * of the document that its own commit writes; the document is read again before each later one.
   */
  function RecoverRows(doc: Doc, pending: seq<Row>, n: nat, attempt: nat -> Attempt): (r: (seq<Reply>, Doc))
    requires n <= |pending|
    ensures |r.0| <= |pending| - n
    decreases |pending| - n
  {
    if n == |pending| then ([], doc)
    else if RecoveryError(pending[n]).Some? then ([Failed(RecoveryConflict)], doc)
    else
      var step := Commit(doc, pending[n], attempt(n).t, true, n == 0, attempt(n).fault);
      if step.0.Failed? then ([step.0], step.1)
      else
        var rest := RecoverRows(step.1, pending, n + 1, attempt);
        ([step.0] + rest.0, rest.1)
  }

  function Recover(doc: Doc, attempt: nat -> Attempt): (seq<Reply>, Doc) {
    RecoverRows(doc, PreparedRows(doc.wals), 0, attempt)
  }
}
