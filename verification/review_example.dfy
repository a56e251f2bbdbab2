/** Requests that every check accepts, and what a crash and a recovery make of them. */
module ReviewExample {
  import opened Json
  import opened Secrets
  import opened Redaction
  import opened Canonical
  import opened Numbers
  import Text
  import opened ReviewOutcome
  import opened ReviewLog
  import opened ReviewRequest
  import opened ReviewInvariant
  import opened ReviewSteps
  import opened ReviewRuns
  import opened ReviewCrash
  import opened ReviewRepository

  const DEBIT := Obj([Member("debit", Num(1250000))])
  const CREDIT := Obj([Member("credit", Num(1250000))])
  const LINES := Arr([DEBIT, CREDIT])

  const COLUMNS: seq<Member<Json>> := [
    Member("ai_proposed", Bool(true)), Member("ai_proposal_id", Str("P-1")), Member("posting_status", Str("DRAFT")),
    Member("entity_id", Str("4")), Member("accounting_period", Str("2026-07")), Member("je_date", Str("2026-07-31")),
    Member("source_document_id", Str("D-1")), Member("ai_rule_id", Str("R")), Member("idempotency_key", Str("K-1")),
    Member("lines", LINES), Member("ai_evidence", EVIDENCE)
  ]

  /** What the workbench hands over with a Draft and with its approval. */
  const EVIDENCE := Obj([Member("source_refs", Arr([Str("S-1")]))])

  /** A balanced Draft of two lines, and its approval. */
  const APPROVAL := Input(Obj(COLUMNS), Outcome("APPROVE", "O-1", Null, Null, EVIDENCE), "controller")

  lemma ColumnNames()
    ensures forall i, j :: 0 <= i < j < |COLUMNS| ==> COLUMNS[i].key != COLUMNS[j].key
  {
    var c := COLUMNS;
    assert |c[0].key| == 11 && |c[1].key| == 14 && |c[2].key| == 14 && |c[3].key| == 9 && |c[4].key| == 17;
    assert |c[5].key| == 7 && |c[6].key| == 18 && |c[7].key| == 10 && |c[8].key| == 15 && |c[9].key| == 5;
    assert |c[10].key| == 11 && c[0].key[3] == 'p' && c[10].key[3] == 'e' && c[1].key[0] == 'a' && c[2].key[0] == 'p';
  }

  /** Each column as the draft shows it, and as its redacted form does. */
  lemma ColumnAt(i: nat)
    requires i < |COLUMNS|
    ensures Find(COLUMNS, COLUMNS[i].key) == Some(COLUMNS[i].value)
    ensures Find(Members(Redact(APPROVAL.draft)), COLUMNS[i].key)
         == Some(if SecretKey(COLUMNS[i].key) then Str(MASK) else Redact(COLUMNS[i].value))
  {
    hide SecretKey, Redact;
    ColumnNames();
    FindAt(COLUMNS, i);
    RedactFind(COLUMNS, COLUMNS[i].key);
    RedactedDraft();
  }

  lemma RedactedDraft()
    ensures Redact(APPROVAL.draft) == Obj(RedactMembers(COLUMNS))
  {
    hide RedactMembers;
  }

  lemma ApprovedDraft()
    ensures IsAIDraft(APPROVAL.draft) && ProposalId(APPROVAL.draft) == Str("P-1")
  {
    hide Find, Redact, SecretKey;
    ColumnAt(0);
    ColumnAt(1);
    ColumnAt(2);
  }

  lemma ApprovedOutcome()
    ensures OutcomeError(APPROVAL.outcome).None? && APPROVAL.actor != "" && APPROVAL.actor != BRAIN
  {
    hide TouchesTrace;
    var decisions := ["APPROVE", "REJECT", "EDIT"];
    assert decisions[0] == APPROVAL.outcome.decision;
    assert |"APPROVE"| == 7 && |"EDIT"| == 4 && |APPROVAL.outcome.key| == 3;
    assert |APPROVAL.actor| == 10 && |BRAIN| == 19;
  }

  lemma ApprovalIsValid()
    ensures Validate(APPROVAL).None? && ProposalId(APPROVAL.draft) == Str("P-1") && PlainDraft(APPROVAL)
    ensures Scalar(ProposalId(APPROVAL.draft))
  {
    ColumnNames();
    ApprovedDraft();
    ApprovedOutcome();
    hide IsAIDraft, OutcomeError, ProposalId;
  }

  lemma ReviewNames(input: Input, at: string)
    ensures (var ms := ReviewMembers(input, at);
             && |ms| == 6
             && ms[0].key[0] == 'p' && ms[1].key[0] == 'a' && ms[2].key[0] == 'a' && ms[3].key[0] == 'a'
             && ms[4].key[0] == 'a' && ms[5].key[0] == 'h'
             && |ms[0].key| == 14 && |ms[1].key| == 15 && |ms[2].key| == 14 && |ms[3].key| == 14
             && |ms[4].key| == 20 && |ms[5].key| == 7)
  {
    hide History, ReviewEntry;
  }

  /** No outcome sets this member. */
  predicate Foreign(key: string) {
    && key != ""
    && ((|key| != 14 && |key| != 15 && |key| != 20 && |key| != 7) || (key[0] != 'p' && key[0] != 'a' && key[0] != 'h'))
  }

  lemma OutsideReview(input: Input, at: string, key: string)
    requires Foreign(key)
    ensures Find(ReviewMembers(input, at), key).None?
  {
    hide ReviewMembers;
    var ms := ReviewMembers(input, at);
    ReviewNames(input, at);
    FindSkips(ms, 6, key);
  }

  /** What the applied draft shows of a column that neither the outcome nor the patch sets. */
  lemma AppliedColumn(input: Input, at: string, i: nat)
    requires 3 <= i < |COLUMNS| && input.draft == Redact(Obj(COLUMNS)) && Find(PatchMembers(input), COLUMNS[i].key).None?
    ensures Find(Members(Applied(input, at)), COLUMNS[i].key)
         == Some(if SecretKey(COLUMNS[i].key) then Str(MASK) else Redact(COLUMNS[i].value))
  {
    hide SecretKey, Redact, ReviewMembers, Applied, PatchMembers;
    var key := COLUMNS[i].key;
    ColumnShapes();
    OutsideReview(input, at, key);
    AppliedGet(input, at, key);
    ColumnAt(i);
  }

  lemma ColumnShapes()
    ensures forall i :: 3 <= i < |COLUMNS| ==> Foreign(COLUMNS[i].key)
  {
    var c := COLUMNS;
    assert |c[3].key| == 9 && |c[4].key| == 17 && |c[5].key| == 7 && |c[6].key| == 18 && |c[7].key| == 10;
    assert |c[8].key| == 15 && |c[9].key| == 5 && |c[10].key| == 11;
    assert c[5].key[0] == 'j' && c[8].key[0] == 'i';
  }

  lemma NoPatch()
    ensures PatchMembers(RedactInput(APPROVAL)) == [] && PatchesLinesOnly(RedactInput(APPROVAL))
  {
    hide Redact;
    assert |"APPROVE"| == 7 && |"EDIT"| == 4;
  }

  lemma LinesBalance()
    ensures !SecretKey("lines") && Redact(LINES) == LINES && PassingLines(LINES)
  {
    hide SecretKey;
    LinesIsPublic();
    DebitIsPublic();
    CreditIsPublic();
    SideTotals();
    OneMember("debit", Num(1250000));
    OneMember("credit", Num(1250000));
    TwoItems(DEBIT, CREDIT);
  }

  lemma OneMember(key: string, v: Json)
    requires !SecretKey(key) && Scalar(v)
    ensures Redact(Obj([Member(key, v)])) == Obj([Member(key, v)])
  {
    hide SecretKey;
    var ms := [Member(key, v)];
    assert ms[1..] == [];
    assert RedactMembers(ms) == [Member(key, Redact(v))] + RedactMembers(ms[1..]);
  }

  lemma TwoItems(a: Json, b: Json)
    requires Redact(a) == a && Redact(b) == b
    ensures Redact(Arr([a, b])) == Arr([a, b])
  {
    var xs := [a, b];
    assert xs[1..] == [b] && xs[1..][1..] == [];
    assert RedactItems(xs) == [Redact(a)] + RedactItems(xs[1..]);
    assert RedactItems([b]) == [Redact(b)] + RedactItems([b][1..]);
  }

  lemma SideTotals()
    ensures Total(LINES.items, "debit_amount", "debit") == Some(1250000)
    ensures Total(LINES.items, "credit_amount", "credit") == Some(1250000)
  {
    assert |"debit"| == 5 && |"credit"| == 6 && |"debit_amount"| == 12 && |"credit_amount"| == 13;
    LineAmount("debit", "debit_amount", "debit", Num(1250000));
    LineAmount("credit", "debit_amount", "debit", Num(1250000));
    LineAmount("debit", "credit_amount", "credit", Num(1250000));
    LineAmount("credit", "credit_amount", "credit", Num(1250000));
    hide Amount;
    var xs := LINES.items;
    assert xs[1..] == [CREDIT] && xs[1..][1..] == [];
    TotalOfTwo(xs, "debit_amount", "debit");
    TotalOfTwo(xs, "credit_amount", "credit");
  }

  lemma TotalOfTwo(xs: seq<Json>, primary: string, secondary: string)
    requires |xs| == 2 && !xs[0].Null? && !xs[1].Null?
    requires Amount(xs[0], primary, secondary).Some? && Amount(xs[1], primary, secondary).Some?
    ensures Total(xs, primary, secondary)
         == Some(Amount(xs[0], primary, secondary).value + Amount(xs[1], primary, secondary).value)
  {
    hide Amount;
    assert xs[1..][1..] == [];
    assert Total(xs[1..][1..], primary, secondary) == Some(0);
  }

  lemma LineAmount(key: string, primary: string, secondary: string, v: Json)
    requires !v.Null? && key != primary
    ensures Amount(Obj([Member(key, v)]), primary, secondary) == if key == secondary then NumberOf(v) else Some(0)
  {
    hide TextNumber;
    var ms := [Member(key, v)];
    assert ms[1..] == [];
    assert Find(ms, primary) == None;
  }

  /** The approval is committed by every clock. */
  lemma ApprovalCommits(t0: Times, t: Times)
    ensures CommitError(NewRow(TreeRequest(APPROVAL), t0), t).None?
  {
    hide Applied, Validate, PassingLines, SecretKey, Redact, RedactInput, PayloadText, PatchMembers;
    ApprovalIsValid();
    StoredRequestStaysValid(APPROVAL);
    NoPatch();
    LinesColumn(t.reviewed);
    LinesBalance();
    StoredColumns(APPROVAL);
    AppliedPasses(RedactInput(APPROVAL), t.reviewed, LINES);
  }

  lemma StoredColumns(input: Input)
    requires input.draft == Obj(COLUMNS)
    ensures RedactInput(input).draft == Redact(Obj(COLUMNS))
  {
    hide Redact;
  }

  lemma TruthyColumn(input: Input, at: string, i: nat, key: string)
    requires 3 <= i < 9 && COLUMNS[i].key == key
    requires input.draft == Redact(Obj(COLUMNS)) && Find(PatchMembers(input), key).None?
    ensures Truthy(Get(Applied(input, at), key))
  {
    hide Applied, SecretKey, PatchMembers;
    AppliedColumn(input, at, i);
    assert |MASK| == 10;
  }

  lemma LinesColumn(at: string)
    ensures Get(Applied(RedactInput(APPROVAL), at), "lines") == LINES
  {
    hide Applied, SecretKey, RedactInput, Redact, PatchMembers;
    LinesBalance();
    NoPatch();
    StoredColumns(APPROVAL);
    AppliedColumn(RedactInput(APPROVAL), at, 9);
  }

  lemma StatusColumn(input: Input, at: string)
    ensures Get(Applied(input, at), "posting_status") == Str("DRAFT")
  {
    hide Applied, ReviewMembers, PatchMembers;
    AppliedGet(input, at, "posting_status");
    StatusIsDraft(input, at);
  }

  /** A patch that sets nothing but the lines. */
  ghost predicate PatchesLinesOnly(input: Input) {
    forall key :: key != "lines" ==> Find(PatchMembers(input), key).None?
  }

  lemma RequiredColumns()
    ensures COLUMNS[3].key == "entity_id" && COLUMNS[4].key == "accounting_period" && COLUMNS[5].key == "je_date"
    ensures COLUMNS[6].key == "source_document_id" && COLUMNS[7].key == "ai_rule_id" && COLUMNS[8].key == "idempotency_key"
    ensures forall i :: 3 <= i < 9 ==> COLUMNS[i].key != "lines"
  {
    assert |"lines"| == 5 && |"entity_id"| == 9 && |"accounting_period"| == 17 && |"je_date"| == 7;
    assert |"source_document_id"| == 18 && |"ai_rule_id"| == 10 && |"idempotency_key"| == 15;
  }

  lemma AppliedPasses(input: Input, at: string, lines: Json)
    requires input.draft == Redact(Obj(COLUMNS)) && PatchesLinesOnly(input)
    requires Get(Applied(input, at), "lines") == lines && PassingLines(lines)
    ensures DraftError(Applied(input, at)).None?
  {
    hide Applied, PassingLines, SecretKey, Get, Truthy, Redact, PatchMembers;
    RequiredColumns();
    StatusColumn(input, at);
    TruthyColumn(input, at, 3, "entity_id");
    TruthyColumn(input, at, 4, "accounting_period");
    TruthyColumn(input, at, 5, "je_date");
    TruthyColumn(input, at, 6, "source_document_id");
    TruthyColumn(input, at, 7, "ai_rule_id");
    TruthyColumn(input, at, 8, "idempotency_key");
  }

  lemma StatusIsDraft(input: Input, at: string)
    ensures Find(ReviewMembers(input, at), "posting_status") == Some(Str("DRAFT"))
  {
    hide History, ReviewEntry;
  }

  /**
   * On the empty document: the approval of a balanced Draft, a crash between the two writes and a recovery store
   * another draft than the uninterrupted call does, and its lines are gone.
   */
  lemma RecoveryExample(t0: Times, crash: Fault, t: Times)
    requires !crash.Kept?
    ensures (var req := TreeRequest(APPROVAL);
             var crashed := Apply(EMPTY, req, t0, Kept, crash).1;
             var whole := Apply(EMPTY, req, t.(created := t0.created), Kept, Kept).1;
             var recovered := Recover(crashed, _ => Attempt(t, Kept)).1;
             recovered.events == whole.events && recovered.drafts != whole.drafts)
  {
    hide *;
    EmptyIsFold();
    ApprovalIsValid();
    ApprovalCommits(t0, t);
    NothingStored("O-1");
    ApprovalLosesContent();
    TreeIsStorable(APPROVAL);
    TreeRequestIs(APPROVAL);
    StoredRequestKeepsPayload(APPROVAL);
    StoredDraftIsPlain(APPROVAL);
    PayloadTextIs(RedactInput(APPROVAL));
    NewRowIs(TreeRequest(APPROVAL), t0);
    RecoveryErrorIs(NewRow(TreeRequest(APPROVAL), t0));
    TreeTextNotEmpty(APPROVAL);
    RecoveryReachesUninterruptedIff(EMPTY, [], TreeRequest(APPROVAL), t0, crash, t);
  }

  lemma TreeTextNotEmpty(input: Input)
    requires Storable(TreeRequest(input))
    ensures PayloadText(input) != ""
  {
    hide Validate, RedactInput, ProposalId, PayloadText;
  }

  lemma NothingStored(key: string)
    ensures PreparedRows(EMPTY.wals) == [] && FindRow(EMPTY.wals, key).None? && APPROVAL.outcome.key == "O-1"
  {
  }

  lemma ApprovalLosesContent()
    ensures LosesContent(RedactInput(APPROVAL))
  {
    hide SecretKey, Redact, ReviewMembers, SetByReview;
    NoPatch();
    LinesBalance();
    ColumnAt(9);
    LinesAreTheDraftsOwn(RedactInput(APPROVAL));
    assert BringsNested(RedactInput(APPROVAL), "lines");
  }

  // ---------------------------------------------------------------- edits of the lines

  const SHORT := Obj([Member("credit", Num(1000000))])
  const UNEVEN := Arr([DEBIT, SHORT])

  const UNREADABLE := Obj([Member("credit", Str("n/a"))])
  const HALF_READABLE := Arr([DEBIT, UNREADABLE])

  /** An edit of the same Draft that replaces its lines. */
  function Edit(lines: Json): Input {
    Input(Obj(COLUMNS), Outcome("EDIT", "O-2", Null, Obj([Member("lines", lines)]), Null), "controller")
  }

  lemma LinesAreNoTrace(lines: Json)
    ensures !TouchesTrace(Edit(lines).outcome.patch)
  {
    var f := IMMUTABLE_FIELDS;
    assert |f[0]| > 5 && |f[1]| > 5 && |f[2]| > 5 && |f[3]| > 5 && |f[4]| > 5 && |f[5]| > 5 && |f[6]| > 5;
    assert |f[7]| > 5 && |f[8]| > 5 && |f[9]| > 5 && |f[10]| > 5;
    var ms := [Member("lines", lines)];
    assert ms[1..] == [];
    forall field | field in f
      ensures Find(ms, field).None?
    {
      assert |field| > 5 && |"lines"| == 5;
    }
  }

  lemma EditOutcome(lines: Json)
    ensures OutcomeError(Edit(lines).outcome).None?
  {
    LinesAreNoTrace(lines);
    hide TouchesTrace;
    var decisions := ["APPROVE", "REJECT", "EDIT"];
    assert decisions[2] == Edit(lines).outcome.decision;
    assert |Edit(lines).outcome.key| == 3;
  }

  lemma EditIsValid(lines: Json)
    ensures Validate(Edit(lines)).None? && Scalar(ProposalId(Edit(lines).draft))
  {
    ApprovedDraft();
    ApprovedOutcome();
    EditOutcome(lines);
    hide IsAIDraft, OutcomeError, ProposalId;
    assert |"controller"| == 10;
  }

  lemma UnevenTotals()
    ensures !PassingLines(UNEVEN)
  {
    assert |"debit"| == 5 && |"credit"| == 6 && |"debit_amount"| == 12 && |"credit_amount"| == 13;
    LineAmount("debit", "debit_amount", "debit", Num(1250000));
    LineAmount("credit", "debit_amount", "debit", Num(1000000));
    LineAmount("debit", "credit_amount", "credit", Num(1250000));
    LineAmount("credit", "credit_amount", "credit", Num(1000000));
    hide Amount;
    TotalOfTwo(UNEVEN.items, "debit_amount", "debit");
    TotalOfTwo(UNEVEN.items, "credit_amount", "credit");
  }

  lemma UnreadableTotals()
    ensures PassingLines(HALF_READABLE) && !BalancedLines(HALF_READABLE) && CreditAmount(UNREADABLE).None?
  {
    assert |"debit"| == 5 && |"credit"| == 6 && |"debit_amount"| == 12 && |"credit_amount"| == 13;
    LineAmount("debit", "debit_amount", "debit", Num(1250000));
    LineAmount("credit", "debit_amount", "debit", Str("n/a"));
    LineAmount("credit", "credit_amount", "credit", Str("n/a"));
    NotANumber();
    hide Amount, NumberOf;
    TotalOfTwo(HALF_READABLE.items, "debit_amount", "debit");
    TotalIsNumberIff(HALF_READABLE.items, "credit_amount", "credit");
    assert HALF_READABLE.items[1] == UNREADABLE;
  }

  lemma NotANumber()
    ensures NumberOf(Str("n/a")).None?
  {
    var s := "n/a";
    assert s[0] == 'n' && |s| == 3 && s[..0] == "" && s[0..] == s;
    assert Text.Run(s) == 0;
  }

  /** Lines that redaction leaves as they are, and so does the edit. */
  lemma EditStays(lines: Json)
    requires Redact(lines) == lines
    ensures !SecretKey("lines") && Redact(Edit(lines).outcome.patch) == Edit(lines).outcome.patch
  {
    hide SecretKey;
    LinesIsPublic();
    OneRedacted("lines", lines);
  }

  lemma TwoLinesStay(key: string, a: Json, v: Json)
    requires !SecretKey(key) && Scalar(v) && Redact(a) == a
    ensures Redact(Arr([a, Obj([Member(key, v)])])) == Arr([a, Obj([Member(key, v)])])
  {
    hide SecretKey;
    OneMember(key, v);
    TwoItems(a, Obj([Member(key, v)]));
  }

  lemma EditedLinesStay()
    ensures Redact(UNEVEN) == UNEVEN && Redact(HALF_READABLE) == HALF_READABLE
  {
    hide SecretKey;
    DebitIsPublic();
    CreditIsPublic();
    OneMember("debit", Num(1250000));
    TwoLinesStay("credit", DEBIT, Num(1000000));
    TwoLinesStay("credit", DEBIT, Str("n/a"));
  }

  lemma OneRedacted(key: string, v: Json)
    requires !SecretKey(key) && Redact(v) == v
    ensures Redact(Obj([Member(key, v)])) == Obj([Member(key, v)])
  {
    hide SecretKey;
    var ms := [Member(key, v)];
    assert ms[1..] == [];
    assert RedactMembers(ms) == [Member(key, Redact(v))] + RedactMembers(ms[1..]);
  }

  lemma EditPatch(lines: Json)
    requires Redact(lines) == lines
    ensures Find(PatchMembers(RedactInput(Edit(lines))), "lines") == Some(lines)
    ensures PatchesLinesOnly(RedactInput(Edit(lines)))
  {
    EditStays(lines);
    hide Redact, SecretKey;
    assert Redact(Redact(Edit(lines).outcome.patch)) == Edit(lines).outcome.patch;
    var ms := [Member("lines", lines)];
    assert ms[1..] == [];
    assert PatchMembers(RedactInput(Edit(lines))) == ms;
  }

  /** The edited draft shows the lines of the patch. */
  lemma EditedLines(lines: Json, at: string)
    requires Redact(lines) == lines
    ensures Get(Applied(RedactInput(Edit(lines)), at), "lines") == lines
  {
    hide *;
    var input := RedactInput(Edit(lines));
    EditPatch(lines);
    ForeignLines();
    OutsideReview(input, at, "lines");
    AppliedGet(input, at, "lines");
    GetIs(Applied(input, at), "lines");
  }

  lemma UnbalancedRefused(t0: Times, t: Times)
    ensures CommitError(NewRow(TreeRequest(Edit(UNEVEN)), t0), t).Some?
  {
    hide *;
    var input, at := RedactInput(Edit(UNEVEN)), t.reviewed;
    EditedLinesStay();
    EditedLines(UNEVEN, at);
    UnevenTotals();
    UnbalancedIsError(Applied(input, at));
    CommitErrorParts(NewRow(TreeRequest(Edit(UNEVEN)), t0), t);
    NewRowIs(TreeRequest(Edit(UNEVEN)), t0);
    TreeRequestIs(Edit(UNEVEN));
  }

  /** An edit to lines that pass is committed by every clock. */
  lemma EditCommits(lines: Json, t0: Times, t: Times)
    requires Redact(lines) == lines && PassingLines(lines)
    ensures CommitError(NewRow(TreeRequest(Edit(lines)), t0), t).None?
  {
    hide Applied, Validate, PassingLines, SecretKey, Redact, RedactInput, PayloadText, PatchMembers;
    EditIsValid(lines);
    StoredRequestStaysValid(Edit(lines));
    EditedLines(lines, t.reviewed);
    EditPatch(lines);
    StoredColumns(Edit(lines));
    AppliedPasses(RedactInput(Edit(lines)), t.reviewed, lines);
  }

  lemma ForeignLines()
    ensures Foreign("lines")
  {
    assert |"lines"| == 5;
  }

  lemma UnbalancedIsError(d: Json)
    requires !PassingLines(Get(d, "lines"))
    ensures DraftError(d).Some?
  {
    hide PassingLines, Get;
  }

  /** An accepted edit that unbalances its Draft stays PREPARED, and every recovery stops at it. */
  lemma BlockedEditExample(t0: Times, second: Fault, attempt: nat -> Attempt)
    ensures Validate(Edit(UNEVEN)).None?
    ensures (var req := TreeRequest(Edit(UNEVEN));
             var after := Apply(EMPTY, req, t0, Kept, second).1;
             && after.wals == [NewRow(req, t0)] && after.wals[0].state.Prepared?
             && |Recover(after, attempt).0| == 1 && Recover(after, attempt).0[0].Failed?
             && Recover(after, attempt).1.wals == after.wals)
  {
    hide *;
    var req := TreeRequest(Edit(UNEVEN));
    EmptyIsFold();
    EditIsValid(UNEVEN);
    TreeIsStorable(Edit(UNEVEN));
    TreeRequestIs(Edit(UNEVEN));
    UnbalancedRefused(t0, t0);
    NothingStored(Edit(UNEVEN).outcome.key);
    AfterIntent(EMPTY, [], req, t0, second);
    OneRowWritten(req, t0);
    NewRowParts(req, t0);
    var after := Apply(EMPTY, req, t0, Kept, second).1;
    OnlyRowPending(NewRow(req, t0));
    UnbalancedRefused(t0, attempt(0).t);
    BlockedRowStopsRecovery(after, [], attempt, 0, 0);
    BlockedAtOnce(after, attempt);
  }

  lemma OneRowWritten(req: Request, t: Times)
    ensures EMPTY.(wals := EMPTY.wals + [NewRow(req, t)]).wals == [NewRow(req, t)]
  {
    hide NewRow;
  }

  lemma OnlyRowPending(row: Row)
    requires row.state.Prepared?
    ensures PreparedRows([row]) == [row]
  {
    OnePrepared(row);
  }

  lemma BlockedAtOnce(doc: Doc, attempt: nat -> Attempt)
    requires Inv(doc, []) && |doc.wals| == 1 && PreparedRows(doc.wals) == doc.wals
    requires CommitError(doc.wals[0], attempt(0).t).Some?
    ensures Recover(doc, attempt).1.wals == doc.wals
  {
    hide *;
    RecoverStep(doc, [], attempt);
    RecoversExactlyParts(doc, [], doc.wals, 0, attempt);
    StopsParts(doc.wals[0], attempt(0));
    StopAtUnfolds(doc.wals, 0, attempt);
    NoneAmong(doc.wals, Recover(doc, attempt).1.wals, doc.wals);
  }

  /** An edit to a credit amount that is no number is committed, and the stored draft is not balanced. */
  lemma UnreadableCreditExample(t0: Times)
    ensures Validate(Edit(HALF_READABLE)).None?
    ensures (var (reply, after) := Apply(EMPTY, TreeRequest(Edit(HALF_READABLE)), t0, Kept, Kept);
             && reply.Done? && |after.drafts| == 1
             && Get(after.drafts[0], "lines") == HALF_READABLE && !BalancedLines(HALF_READABLE))
  {
    hide *;
    var input := Edit(HALF_READABLE);
    var req := TreeRequest(input);
    EmptyIsFold();
    EditIsValid(HALF_READABLE);
    EditedLinesStay();
    UnreadableTotals();
    TreeIsStorable(input);
    TreeRequestIs(input);
    EditCommits(HALF_READABLE, t0, t0);
    NothingStored(input.outcome.key);
    FirstCallProceeds(EMPTY, req);
    ProceedsParts(EMPTY, req, t0);
    KeptIs();
    ApplyStep(EMPTY, [], req, t0, Kept, Kept);
    var row := NewRow(req, t0);
    NewRowParts(req, t0);
    NewRowIs(req, t0);
    var after := Apply(EMPTY, req, t0, Kept, Kept).1;
    assert [] + [Entry(row, t0, false, false)] == [Entry(row, t0, false, false)];
    InvParts(after, [Entry(row, t0, false, false)]);
    OnlyDraft(row, t0);
    EditPatch(HALF_READABLE);
    ReviewedLines(RedactInput(input), t0.reviewed, 1, HALF_READABLE);
  }

  lemma OnlyDraft(row: Row, t: Times)
    ensures DraftsOf([Entry(row, t, false, false)]) == [Redact(Reviewed(row.input, t.reviewed, 1))]
  {
    hide Redact, Reviewed, ProposalId;
    var e := Entry(row, t, false, false);
    AppendLast([], e);
    assert [] + [e] == [e];
  }

  lemma ReviewedLines(input: Input, at: string, revision: nat, lines: Json)
    requires Find(PatchMembers(input), "lines") == Some(lines) && Redact(lines) == lines
    ensures Get(Redact(Reviewed(input, at, revision)), "lines") == lines
  {
    hide *;
    ForeignLines();
    LinesIsPublic();
    OutsideReview(input, at, "lines");
    ReviewedGet(input, at, revision, "lines");
    RevisionIsNoLine();
    RedactGet(Reviewed(input, at, revision), "lines");
    GetIs(Reviewed(input, at, revision), "lines");
  }

  lemma RevisionIsNoLine()
    ensures "lines" != "ai_review_revision"
  {
    assert |"lines"| == 5 && |"ai_review_revision"| == 18;
  }

  lemma NoneAmong(before: seq<Row>, after: seq<Row>, pending: seq<Row>)
    requires KeepsRows(before, after, pending, 0, 0)
    ensures after == before
  {
  }
}
