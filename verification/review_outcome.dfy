/** What one review outcome does to a Draft, and the text that identifies the request. */
module ReviewOutcome {
  import opened Json
  import opened Secrets
  import opened Redaction
  import opened Canonical
  import opened Numbers

  datatype Outcome = Outcome(decision: string, key: string, reason: Json, patch: Json, metadata: Json)

  datatype Input = Input(draft: Json, outcome: Outcome, actor: string)

  datatype Error =
    | NotAnAIDraft
    | NoHumanReviewer
    | UnknownDecision
    | NoIdempotencyKey
    | PatchRequired
    | ImmutableField
    | PatchNotAllowed
    | IncompleteDraft
    | UnbalancedDraft
    | IdempotencyConflict
    | RecoveryConflict
    | NotConfirmed
    | StorageThrew

  const BRAIN := "AI_ACCOUNTING_BRAIN"

  const IMMUTABLE_FIELDS: seq<string> := [
    "posting_status", "entity_id", "period_code", "accounting_period", "source_doc_id", "source_document_id",
    "idempotency_key", "ai_proposal_id", "ai_finding_id", "ai_rule_id", "member_trace"
  ]

  function ProposalId(draft: Json): Json {
    Get(draft, "ai_proposal_id")
  }

  predicate TouchesTrace(patch: Json) {
    exists field :: field in IMMUTABLE_FIELDS && Find(Members(patch), field).Some?
  }

  predicate IsAIDraft(draft: Json) {
    Truthy(Get(draft, "ai_proposed")) && Truthy(ProposalId(draft)) && Get(draft, "posting_status") == Str("DRAFT")
  }

  function OutcomeError(o: Outcome): Option<Error> {
    if o.decision !in ["APPROVE", "REJECT", "EDIT"] then Some(UnknownDecision)
    else if o.key == "" then Some(NoIdempotencyKey)
    else if o.decision == "EDIT" then
      if Scalar(o.patch) then Some(PatchRequired)
      else if TouchesTrace(o.patch) then Some(ImmutableField)
      else None
    else if Truthy(o.patch) then Some(PatchNotAllowed)
    else None
  }

  /** validateAIReviewOutcome. */
  function Validate(input: Input): Option<Error> {
    if !IsAIDraft(input.draft) then Some(NotAnAIDraft)
    else if input.actor == "" || input.actor == BRAIN then Some(NoHumanReviewer)
    else OutcomeError(input.outcome)
  }

  /** Number(line[primary] ?? line[secondary] ?? 0); none stands for NaN. */
  function Amount(line: Json, primary: string, secondary: string): Option<int> {
    var first := Get(line, primary);
    NumberOf(if first.Null? then Get(line, secondary) else first)
  }

  function CreditAmount(line: Json): Option<int> {
    Amount(line, "credit_amount", "credit")
  }

  /** The total of one side; NaN as soon as one amount is. */
  function Total(lines: seq<Json>, primary: string, secondary: string): Option<int> {
    if lines == [] then Some(0)
    else
      var head, rest := Amount(lines[0], primary, secondary), Total(lines[1..], primary, secondary);
      if head.None? || rest.None? then None else Some(head.value + rest.value)
  }

  function DebitTotal(lines: seq<Json>): Option<int> {
    Total(lines, "debit_amount", "debit")
  }

  function CreditTotal(lines: seq<Json>): Option<int> {
    Total(lines, "credit_amount", "credit")
  }

  /** Less than half a cent apart; fifty ten-thousandths are half a cent. */
  predicate Close(debit: int, credit: int) {
    -50 < debit - credit < 50
  }

  /**
   * What the check lets through: at least two lines, none of them null, and a positive debit total. A comparison
   * with NaN is false, so a credit total that is not a number is never found to differ.
   */
  predicate PassingLines(lines: Json) {
    && lines.Arr? && |lines.items| >= 2 && (forall i :: 0 <= i < |lines.items| ==> !lines.items[i].Null?)
    && var debit, credit := DebitTotal(lines.items), CreditTotal(lines.items);
       debit.Some? && debit.value > 0 && (credit.Some? ==> Close(debit.value, credit.value))
  }

  /** What the check is there for: both sides are numbers and agree. */
  predicate BalancedLines(lines: Json) {
    && lines.Arr?
    && var debit, credit := DebitTotal(lines.items), CreditTotal(lines.items);
       debit.Some? && credit.Some? && Close(debit.value, credit.value)
  }

  /** validateAIReviewDraft. */
  function DraftError(draft: Json): Option<Error> {
    if Get(draft, "posting_status") != Str("DRAFT") || !Truthy(Get(draft, "entity_id"))
       || !Truthy(Get(draft, "accounting_period")) || !Truthy(Get(draft, "je_date"))
       || !Truthy(Get(draft, "source_document_id")) || !Truthy(Get(draft, "ai_rule_id"))
       || !Truthy(Get(draft, "idempotency_key")) then Some(IncompleteDraft)
    else if !PassingLines(Get(draft, "lines")) then Some(UnbalancedDraft)
    else None
  }

  function History(draft: Json): seq<Json> {
    var h := Get(draft, "history");
    if h.Arr? then h.items else []
  }

  function ReviewEntry(input: Input, at: string): Json {
    Obj([Member("a", Str("AI_REVIEW_" + input.outcome.decision)), Member("by", Str(input.actor)), Member("at", Str(at)),
         Member("idempotency_key", Str(input.outcome.key))])
  }

  /** The members that every outcome sets, whatever the draft or the patch says. */
  function ReviewMembers(input: Input, at: string): seq<Member<Json>> {
    [Member("posting_status", Str("DRAFT")),
     Member("ai_review_state", Str(input.outcome.decision)),
     Member("ai_reviewed_by", Str(input.actor)),
     Member("ai_reviewed_at", Str(at)),
     Member("ai_review_outcome_id", Str(input.outcome.key)),
     Member("history", Arr(History(input.draft) + [ReviewEntry(input, at)]))]
  }

  function PatchMembers(input: Input): seq<Member<Json>> {
    if input.outcome.decision == "EDIT" then Members(Redact(input.outcome.patch)) else []
  }

  /** The Draft that applyAIReviewOutcome returns. */
  function Applied(input: Input, at: string): Json {
    Obj(Spread(Spread(Members(input.draft), PatchMembers(input)), ReviewMembers(input, at)))
  }

  /** The Draft that a commit adds its revision to. */
  function Reviewed(input: Input, at: string, revision: nat): Json {
    Obj(Spread(Members(Applied(input, at)), [Member("ai_review_revision", Num(10000 * revision))]))
  }

  function RedactInput(input: Input): Input {
    input.(draft := Redact(input.draft),
           outcome := input.outcome.(reason := Redact(input.outcome.reason), patch := Redact(input.outcome.patch),
                                     metadata := Redact(input.outcome.metadata)))
  }

  function DraftId(draft: Json): Json {
    if Truthy(Get(draft, "je_id")) then Get(draft, "je_id") else OrNull(Get(draft, "je_number"))
  }

  const PAYLOAD_NAMES: seq<string> := [
    "proposal_id", "draft_id", "draft_idempotency_key", "decision", "reason", "patch", "review_metadata", "actor"
  ]

  /** How the payload names the Draft. */
  function DraftNames(draft: Json): (Json, Json, Json) {
    (OrNull(ProposalId(draft)), DraftId(draft), OrNull(Get(draft, "idempotency_key")))
  }

  function PayloadValues(input: Input): seq<Json> {
    var d := DraftNames(input.draft);
    [d.0, d.1, d.2, OrNull(Str(input.outcome.decision)),
     OrNull(input.outcome.reason), OrNull(input.outcome.patch), OrNull(input.outcome.metadata), OrNull(Str(input.actor))]
  }

  function Named<V>(names: seq<string>, values: seq<V>): (r: seq<Member<V>>)
    requires |names| == |values|
    ensures |r| == |names| && forall i :: 0 <= i < |names| ==> r[i] == Member(names[i], values[i])
  {
    if names == [] then [] else [Member(names[0], values[0])] + Named(names[1..], values[1..])
  }

  /** The redacted payload that identifies a request. */
  function Payload(input: Input): Json {
    Redact(Obj(Named(PAYLOAD_NAMES, PayloadValues(input))))
  }

  function PayloadText(input: Input): string {
    CanonicalText(Payload(input))
  }

  /** What one call takes from its argument: the values it reads, the payload text, and the redacted copy it stores. */
  datatype Request = Request(input: Input, canonical: string, stored: Input)

  /** A request in which no object occurs twice. */
  function TreeRequest(input: Input): Request {
    Request(input, PayloadText(input), RedactInput(input))
  }

  /**
   * What holds of a request however its objects are shared: the copy is redacted, and as long as it passes the
   * first check it names the outcome and the proposal of the request.
   */
  predicate Storable(req: Request) {
    && req.canonical != ""
    && RedactInput(req.stored) == req.stored
    && (Validate(req.input).None? ==> Scalar(ProposalId(req.input.draft)))
    && (Validate(req.input).None? && Validate(req.stored).None? ==>
          req.stored.outcome.key == req.input.outcome.key && ProposalId(req.stored.draft) == ProposalId(req.input.draft))
  }

  // ---------------------------------------------------------------- what the checks guarantee

  lemma {:induction false} TotalIsNumberIff(lines: seq<Json>, primary: string, secondary: string)
    ensures Total(lines, primary, secondary).Some?
       <==> forall i :: 0 <= i < |lines| ==> Amount(lines[i], primary, secondary).Some?
  {
    hide Amount;
    if lines != [] {
      TotalIsNumberIff(lines[1..], primary, secondary);
      assert lines == [lines[0]] + lines[1..];
    }
  }

  /** Lines that pass are balanced exactly when every credit amount is a number. */
  lemma PassingIsBalancedIff(lines: Json)
    requires PassingLines(lines)
    ensures BalancedLines(lines) <==> forall i :: 0 <= i < |lines.items| ==> CreditAmount(lines.items[i]).Some?
  {
    hide Amount, Total, Close;
    TotalIsNumberIff(lines.items, "credit_amount", "credit");
  }

  /** A draft that the commit accepts is balanced exactly when every credit amount of its lines is a number. */
  lemma AcceptedDraftBalancedIff(draft: Json)
    requires DraftError(draft).None?
    ensures Get(draft, "lines").Arr?
    ensures BalancedLines(Get(draft, "lines"))
       <==> forall i :: 0 <= i < |Get(draft, "lines").items| ==> CreditAmount(Get(draft, "lines").items[i]).Some?
  {
    hide Get, Truthy, BalancedLines, CreditAmount, DebitTotal, CreditTotal;
    PassingIsBalancedIff(Get(draft, "lines"));
  }

  lemma OrNullRedact(v: Json)
    ensures OrNull(Redact(v)) == Redact(OrNull(v))
  {
  }

  lemma OrNullText(s: string)
    ensures Redact(OrNull(Str(s))) == OrNull(Str(s))
  {
  }

  lemma RedactInputFixed(input: Input)
    ensures RedactInput(RedactInput(input)) == RedactInput(input)
  {
    RedactIdempotent(input.draft);
    RedactIdempotent(input.outcome.reason);
    RedactIdempotent(input.outcome.patch);
    RedactIdempotent(input.outcome.metadata);
  }

  lemma {:induction false} NamedRedacted(names: seq<string>, a: seq<Json>, b: seq<Json>)
    requires |names| == |a| == |b|
    requires forall i :: 0 <= i < |a| ==> a[i] == Redact(b[i])
    ensures RedactMembers(Named(names, a)) == RedactMembers(Named(names, b))
  {
    if names != [] {
      RedactIdempotent(b[0]);
      NamedRedacted(names[1..], a[1..], b[1..]);
    }
  }

  /**
   * The payload recomputed from the stored, redacted request is the payload of the request itself, so
   * recovery of an alias-free request never reports a conflict.
   */
  lemma StoredRequestKeepsPayload(input: Input)
    ensures Payload(RedactInput(input)) == Payload(input)
    ensures PayloadText(RedactInput(input)) == PayloadText(input)
  {
    PayloadValuesRedacted(input);
    NamedRedacted(PAYLOAD_NAMES, PayloadValues(RedactInput(input)), PayloadValues(input));
  }

  // Each column that is read back from a stored Draft is a public one.

  lemma StoredProposed(d: Json)
    ensures Get(Redact(d), "ai_proposed") == Redact(Get(d, "ai_proposed"))
  {
    AiProposedIsPublic();
    RedactGet(d, "ai_proposed");
  }

  lemma StoredProposalId(d: Json)
    ensures ProposalId(Redact(d)) == Redact(ProposalId(d))
  {
    AiProposalIdIsPublic();
    RedactGet(d, "ai_proposal_id");
  }

  lemma StoredPostingStatus(d: Json)
    ensures Get(Redact(d), "posting_status") == Redact(Get(d, "posting_status"))
  {
    PostingStatusIsPublic();
    RedactGet(d, "posting_status");
  }

  lemma StoredOutcomeId(d: Json)
    ensures Get(Redact(d), "ai_review_outcome_id") == Redact(Get(d, "ai_review_outcome_id"))
  {
    AiReviewOutcomeIdIsPublic();
    RedactGet(d, "ai_review_outcome_id");
  }

  lemma StoredDraftId(d: Json)
    ensures DraftId(Redact(d)) == Redact(DraftId(d))
  {
    JeIdIsPublic();
    JeNumberIsPublic();
    RedactGet(d, "je_id");
    RedactGet(d, "je_number");
    OrNullRedact(Get(d, "je_number"));
  }

  lemma StoredIdempotencyKey(d: Json)
    ensures Get(Redact(d), "idempotency_key") == Redact(Get(d, "idempotency_key"))
  {
    IdempotencyKeyIsPublic();
    RedactGet(d, "idempotency_key");
  }

  lemma StoredDraftNames(d: Json)
    ensures DraftNames(Redact(d)) == (Redact(DraftNames(d).0), Redact(DraftNames(d).1), Redact(DraftNames(d).2))
  {
    StoredProposalId(d);
    StoredDraftId(d);
    StoredIdempotencyKey(d);
    OrNullRedact(ProposalId(d));
    OrNullRedact(Get(d, "idempotency_key"));
  }

  lemma PayloadValuesRedacted(input: Input)
    ensures forall i :: 0 <= i < 8 ==> PayloadValues(RedactInput(input))[i] == Redact(PayloadValues(input)[i])
  {
    hide DraftNames, Redact, OrNull;
    StoredDraftNames(input.draft);
    OrNullText(input.outcome.decision);
    OrNullText(input.actor);
    OrNullRedact(input.outcome.reason);
    OrNullRedact(input.outcome.patch);
    OrNullRedact(input.outcome.metadata);
  }

  lemma StoredPatchTouchesTrace(patch: Json)
    ensures TouchesTrace(Redact(patch)) <==> TouchesTrace(patch)
  {
    forall field
      ensures Find(Members(Redact(patch)), field).Some? <==> Find(Members(patch), field).Some?
    {
      RedactLacks(patch, field);
    }
  }

  lemma StoredDraftStaysAIDraft(d: Json)
    ensures IsAIDraft(Redact(d)) <==> IsAIDraft(d)
  {
    StoredProposed(d);
    StoredProposalId(d);
    StoredPostingStatus(d);
    hide Get, ProposalId;
  }

  /** A request passes the first check exactly when its redacted form does. */
  lemma StoredRequestStaysValid(input: Input)
    ensures Validate(RedactInput(input)) == Validate(input)
  {
    hide IsAIDraft, TouchesTrace;
    StoredDraftStaysAIDraft(input.draft);
    StoredPatchTouchesTrace(input.outcome.patch);
  }

  /** Where each member of a reviewed Draft comes from. */
  lemma ReviewedGet(input: Input, at: string, revision: nat, key: string)
    ensures Find(Members(Reviewed(input, at, revision)), key)
         == if key == "ai_review_revision" then Some(Num(10000 * revision))
            else if Find(ReviewMembers(input, at), key).Some? then Find(ReviewMembers(input, at), key)
            else if Find(PatchMembers(input), key).Some? then Find(PatchMembers(input), key)
            else Find(Members(input.draft), key)
  {
    var rev := [Member("ai_review_revision", Num(10000 * revision))];
    SpreadFind(Members(Applied(input, at)), rev, key);
    SpreadFind(Spread(Members(input.draft), PatchMembers(input)), ReviewMembers(input, at), key);
    SpreadFind(Members(input.draft), PatchMembers(input), key);
  }

  lemma FindSkips<V>(ms: seq<Member<V>>, n: nat, key: string)
    requires n <= |ms| && forall i :: 0 <= i < n ==> ms[i].key != key
    ensures Find(ms, key) == Find(ms[n..], key)
  {
    if n > 0 {
      FindSkips(ms[1..], n - 1, key);
      assert ms[1..][n - 1..] == ms[n..];
    }
  }

  lemma ReviewNamesOutcome(input: Input, at: string)
    ensures Find(ReviewMembers(input, at), "ai_review_outcome_id") == Some(Str(input.outcome.key))
  {
    var ms := ReviewMembers(input, at);
    assert |ms[0].key| == 14 && |ms[1].key| == 15 && |ms[2].key| == 14 && |ms[3].key| == 14;
    FindSkips(ms, 4, "ai_review_outcome_id");
  }

  lemma ReviewOmitsProposal(input: Input, at: string)
    ensures Find(ReviewMembers(input, at), "ai_proposal_id").None?
  {
    var ms := ReviewMembers(input, at);
    assert ms[0].key[0] == 'p' && |ms[1].key| == 15 && ms[2].key[3] == 'r' && ms[3].key[3] == 'r';
    assert |ms[4].key| == 20 && |ms[5].key| == 7;
    FindSkips(ms, 6, "ai_proposal_id");
  }

  lemma ProposalIsImmutable()
    ensures "ai_proposal_id" in IMMUTABLE_FIELDS
  {
    assert IMMUTABLE_FIELDS[7] == "ai_proposal_id";
  }

  lemma EditsKeepTrace(input: Input)
    requires Validate(input).None? && input.outcome.decision == "EDIT"
    ensures !TouchesTrace(input.outcome.patch)
  {
    hide TouchesTrace, IsAIDraft;
  }

  lemma UntouchedField(patch: Json, field: string)
    requires !TouchesTrace(patch) && field in IMMUTABLE_FIELDS
    ensures Find(Members(patch), field).None?
  {
    hide Find;
  }

  lemma PatchMembersIs(input: Input)
    ensures PatchMembers(input) == if input.outcome.decision == "EDIT" then Members(Redact(input.outcome.patch)) else []
  {
    hide Redact;
  }

  lemma PatchOmitsProposal(input: Input)
    requires Validate(input).None?
    ensures Find(PatchMembers(input), "ai_proposal_id").None?
  {
    ProposalIsImmutable();
    hide *;
    PatchMembersIs(input);
    if input.outcome.decision == "EDIT" {
      EditsKeepTrace(input);
      UntouchedField(input.outcome.patch, "ai_proposal_id");
      RedactLacks(input.outcome.patch, "ai_proposal_id");
    }
  }

  lemma RedactLacks(v: Json, key: string)
    ensures Find(Members(Redact(v)), key).None? <==> Find(Members(v), key).None?
  {
    RedactFind(Members(v), key);
  }

  /** No patch moves a Draft to another proposal. */
  lemma AppliedKeepsProposal(input: Input, at: string, revision: nat)
    requires Validate(input).None?
    ensures ProposalId(Reviewed(input, at, revision)) == ProposalId(input.draft)
  {
    ReviewedGet(input, at, revision, "ai_proposal_id");
    ReviewOmitsProposal(input, at);
    PatchOmitsProposal(input);
  }

  /** No patch posts a Draft. */
  lemma AppliedStaysDraft(input: Input, at: string, revision: nat)
    ensures Get(Reviewed(input, at, revision), "posting_status") == Str("DRAFT")
  {
    ReviewedGet(input, at, revision, "posting_status");
  }

  /** No patch hides which outcome produced a Draft. */
  lemma AppliedNamesOutcome(input: Input, at: string, revision: nat)
    ensures Get(Reviewed(input, at, revision), "ai_review_outcome_id") == Str(input.outcome.key)
  {
    ReviewedGet(input, at, revision, "ai_review_outcome_id");
    ReviewNamesOutcome(input, at);
  }
}
