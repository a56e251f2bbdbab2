/** proposeDraftJE: the guards that every generated Draft passes through, with amounts in cents. */
module Proposal {
  import opened Text
  import opened Json

  datatype Line = Line(account: string, debit: int, credit: int)

  /** Dimensions a finding or a spec may leave out. */
  datatype Dimensions = Dimensions(entity: Option<string>, project: Option<string>, property: Option<string>)

  datatype Finding = Finding(id: string, rule: string, hundredths: int, dimensions: Dimensions)

  datatype Evidence = Evidence(schema: string, refs: seq<string>, gates: seq<string>)

  /** A member trace that was given names all three members, possibly as null. */
  datatype MemberTrace = MemberTrace(entity: string, project: string, property: string)

  datatype Spec = Spec(
    posting: string, jeType: string, entity: string, dimensions: Dimensions, trace: Option<MemberTrace>,
    period: string, date: string, document: string, idempotencyKey: Option<string>, lines: seq<Line>)

  datatype Draft = Draft(
    proposalId: string, idempotencyKey: string, trace: MemberTrace, period: string, date: string, document: string,
    rule: string, lines: seq<Line>)

  datatype Refusal =
    | MustBeDraft | LowConfidence | NoEntity | NoType | NoRule | NoMemberTrace | TraceEntityMismatch
    | DimensionMismatch | BadPeriod | DateOutsidePeriod | NoSource | BadEvidence | SourceNotRetained | MissingGates
    | Unbalanced | EmptyKey

  // ---------------------------------------------------------------- calendar texts

  predicate DigitsAt(s: string, from: nat, to: nat) {
    to <= |s| && forall i :: from <= i < to ==> IsDigit(s[i])
  }

  function NumberAt(s: string, from: nat, to: nat): nat
    requires from <= to && DigitsAt(s, from, to)
  {
    DigitsValue(s[from..to])
  }

  /** Four digits, a dash and a month from 01 to 12. */
  predicate ValidPeriod(p: string) {
    |p| == 7 && DigitsAt(p, 0, 4) && p[4] == '-' && DigitsAt(p, 5, 7) && 1 <= NumberAt(p, 5, 7) <= 12
  }

  predicate LeapYear(y: nat) {
    y % 4 == 0 && (y % 100 != 0 || y % 400 == 0)
  }

  function DaysIn(y: nat, m: nat): nat {
    if m == 2 then (if LeapYear(y) then 29 else 28)
    else if m == 4 || m == 6 || m == 9 || m == 11 then 30
    else 31
  }

  /** A calendar date that survives Date.UTC, which moves the years 0 to 99 into the twentieth century. */
  predicate ValidDate(d: string) {
    && |d| == 10 && DigitsAt(d, 0, 4) && d[4] == '-' && DigitsAt(d, 5, 7) && d[7] == '-' && DigitsAt(d, 8, 10)
    && 100 <= NumberAt(d, 0, 4) && 1 <= NumberAt(d, 5, 7) <= 12
    && 1 <= NumberAt(d, 8, 10) <= DaysIn(NumberAt(d, 0, 4), NumberAt(d, 5, 7))
  }

  // ---------------------------------------------------------------- the guard list

  function TotalDebit(lines: seq<Line>): int {
    if lines == [] then 0 else lines[0].debit + TotalDebit(lines[1..])
  }

  function TotalCredit(lines: seq<Line>): int {
    if lines == [] then 0 else lines[0].credit + TotalCredit(lines[1..])
  }

  predicate Agrees(declared: Option<string>, member: string) {
    declared.Some? ==> declared.value == member
  }

  predicate DimensionsAgree(d: Dimensions, t: MemberTrace) {
    Agrees(d.entity, t.entity) && Agrees(d.project, t.project) && Agrees(d.property, t.property)
  }

  predicate EndsWith(s: string, tail: string) {
    |tail| <= |s| && s[|s| - |tail|..] == tail
  }

  predicate Retains(refs: seq<string>, document: string) {
    exists i :: 0 <= i < |refs| && (refs[i] == document || EndsWith(refs[i], ":" + document))
  }

  const GATES: seq<string> := ["DRAFT_ONLY", "HUMAN_REVIEW_REQUIRED", "NO_AUTOMATIC_POSTING"]
  const SCHEMA := "AI_DECISION_EVIDENCE_V1"

  function ProposalIdOf(finding: Finding, period: string): string {
    "AI-PROP:" + finding.id + ":" + period
  }

  function DraftKey(finding: Finding, spec: Spec): string {
    match spec.idempotencyKey
    case Some(key) => key
    case None => "AI-DRAFT:" + spec.document + ":" + finding.rule + ":" + ProposalIdOf(finding, spec.period)
  }

  predicate BalancedSpec(spec: Spec) {
    |spec.lines| >= 2 && TotalDebit(spec.lines) > 0 && TotalDebit(spec.lines) == TotalCredit(spec.lines)
  }

  /** The first guard that refuses, in the order the guards run. */
  function Refused(finding: Finding, evidence: Evidence, spec: Spec): Option<Refusal> {
    if spec.posting != "" && spec.posting != "DRAFT" then Some(MustBeDraft)
    else if finding.hundredths < 60 then Some(LowConfidence)
    else if spec.entity == "" then Some(NoEntity)
    else if spec.jeType == "" then Some(NoType)
    else if finding.rule == "" then Some(NoRule)
    else if spec.trace.None? then Some(NoMemberTrace)
    else if spec.trace.value.entity != spec.entity then Some(TraceEntityMismatch)
    else if !DimensionsAgree(finding.dimensions, spec.trace.value) || !DimensionsAgree(spec.dimensions, spec.trace.value)
    then Some(DimensionMismatch)
    else if !ValidPeriod(spec.period) then Some(BadPeriod)
    else if !ValidDate(spec.date) || spec.date[..7] != spec.period then Some(DateOutsidePeriod)
    else if spec.document == "" then Some(NoSource)
    else if evidence.schema != SCHEMA || evidence.refs == [] then Some(BadEvidence)
    else if !Retains(evidence.refs, spec.document) then Some(SourceNotRetained)
    else if exists i :: 0 <= i < |GATES| && GATES[i] !in evidence.gates then Some(MissingGates)
    else if !BalancedSpec(spec) then Some(Unbalanced)
    else if spec.idempotencyKey == Some("") then Some(EmptyKey)
    else None
  }

  /** The Draft of a spec that no guard refuses. */
  function DraftOf(finding: Finding, spec: Spec): Draft
    requires spec.trace.Some?
  {
    Draft(ProposalIdOf(finding, spec.period), DraftKey(finding, spec), spec.trace.value, spec.period, spec.date,
          spec.document, finding.rule, spec.lines)
  }

  // ---------------------------------------------------------------- dates built from a period

  /** A day of a month, as two digits. */
  predicate TwoDigits(dd: string, value: nat) {
    |dd| == 2 && DigitsAt(dd, 0, 2) && DigitsValue(dd) == value
  }

  /** A day up to the twenty-eighth is in every month, so such a date stands or falls with the year. */
  lemma DayOfPeriod(p: string, dd: string, day: nat)
    requires ValidPeriod(p) && TwoDigits(dd, day) && 1 <= day <= 28
    ensures (p + "-" + dd)[..7] == p
    ensures ValidDate(p + "-" + dd) <==> NumberAt(p, 0, 4) >= 100
  {
    var d := p + "-" + dd;
    assert d[..7] == p && d[0..4] == p[0..4] && d[5..7] == p[5..7];
    assert d[8..10] == dd;
    forall i | 0 <= i < 4
      ensures IsDigit(d[i])
    {
      assert d[i] == p[i];
    }
    forall i | 5 <= i < 7
      ensures IsDigit(d[i])
    {
      assert d[i] == p[i];
    }
    assert d[8] == dd[0] && d[9] == dd[1] && d[7] == '-' && d[4] == p[4];
  }
}
