/** The rent-roll revenue review: cases, exceptions, suggested Drafts and approvals, with amounts in cents. */
module RentRoll {
  import opened Text
  import opened Json
  import opened Proposal
  import RT = ReviewTrace
  import RI = ReviewInvariant
  import RL = ReviewLog

  const RENT_REVENUE := "411000"
  const AR_CONTROL := "120200"

  /** Missing members are the empty text. */
  datatype Scope = Scope(entity: string, project: string, property: string, period: string)

  datatype RentRow = RentRow(id: string, scope: Scope, document: string, scheduled: int)

  datatype Journal = Journal(posted: bool, document: string, scope: Scope, lines: seq<Line>)

  datatype Snapshot = Snapshot(rentRoll: seq<RentRow>, documents: set<string>, journals: seq<Journal>)

  datatype ExceptionCode = SourceIncomplete | DocumentNotRetained | SourceAmbiguous | PostedScopeConflict

  datatype Request = Request(proposalId: string, outcomeKey: string, revision: nat, draft: Draft)

  datatype RowFinding =
    | Tied(row: RentRow)
    | Mismatch(row: RentRow, posted: int, difference: int, draft: Draft, request: Option<Request>)
    | Exceptional(row: RentRow, code: ExceptionCode)
    | Rejected(row: RentRow, refusal: Refusal)

  predicate Complete(row: RentRow) {
    row.scope.entity != "" && row.scope.project != "" && row.scope.property != "" && row.scope.period != ""
    && row.document != "" && row.scheduled > 0
  }

  /** The rows of the period under review. */
  function InPeriod(rows: seq<RentRow>, period: string): (r: seq<RentRow>)
    ensures forall x :: x in r <==> x in rows && x.scope.period == period
  {
    if rows == [] then []
    else (if rows[0].scope.period == period then [rows[0]] else []) + InPeriod(rows[1..], period)
  }

  function Claims(rows: seq<RentRow>, document: string): nat {
    if rows == [] then 0 else (if rows[0].document == document then 1 else 0) + Claims(rows[1..], document)
  }

  predicate Evidences(j: Journal, row: RentRow) {
    j.posted && j.document == row.document
  }

  predicate Conflicts(journals: seq<Journal>, row: RentRow) {
    exists i :: 0 <= i < |journals| && Evidences(journals[i], row) && journals[i].scope != row.scope
  }

  function Revenue(lines: seq<Line>): int {
    if lines == [] then 0
    else (if lines[0].account == RENT_REVENUE then lines[0].credit - lines[0].debit else 0) + Revenue(lines[1..])
  }

  function PostedRevenue(journals: seq<Journal>, row: RentRow): int {
    if journals == [] then 0
    else
      (if Evidences(journals[0], row) && journals[0].scope == row.scope then Revenue(journals[0].lines) else 0)
      + PostedRevenue(journals[1..], row)
  }

  // ---------------------------------------------------------------- the difference Draft

  function FindingOf(row: RentRow): Finding {
    Finding("AI:PROPERTY_REVENUE:REVENUE_MISMATCH:" + row.id, "REVENUE_MISMATCH", 96,
            Dimensions(Some(row.scope.entity), Some(row.scope.project), Some(row.scope.property)))
  }

  function EvidenceOf(row: RentRow, posted: int): Evidence {
    Evidence(SCHEMA, [row.document, "rent_roll:" + row.id, "posted_revenue:" + NumberText(100 * posted)],
             ["DRAFT_ONLY", "HUMAN_REVIEW_REQUIRED", "NO_AUTOMATIC_POSTING"])
  }

  function DifferenceLines(difference: int): seq<Line> {
    if difference > 0 then [Line(AR_CONTROL, difference, 0), Line(RENT_REVENUE, 0, difference)]
    else [Line(RENT_REVENUE, -difference, 0), Line(AR_CONTROL, 0, -difference)]
  }

  function SpecOf(row: RentRow, difference: int): Spec {
    Spec("DRAFT", "AUTO", row.scope.entity,
         Dimensions(Some(row.scope.entity), Some(row.scope.project), Some(row.scope.property)),
         Some(MemberTrace(row.scope.entity, row.scope.project, row.scope.property)),
         row.scope.period, row.scope.period + "-28", row.document,
         Some("AI-RENT-DRAFT:" + row.document + ":" + row.scope.period + ":" + NumberText(100 * difference)),
         DifferenceLines(difference))
  }

  /** The proposal that stands for a row; it does not mention any amount. */
  function RowProposal(row: RentRow): string {
    ProposalIdOf(FindingOf(row), row.scope.period)
  }

  function RequestFor(draft: Draft, traces: seq<RT.Trace>): Option<Request> {
    match RT.FindApproval(traces, Str(draft.proposalId))
    case None => None
    case Some(t) => Some(Request(draft.proposalId, t.key, t.revision, draft))
  }

  /** buildCase. */
  function CaseOf(row: RentRow, posted: int, traces: seq<RT.Trace>): RowFinding {
    var difference := row.scheduled - posted;
    if difference == 0 then Tied(row)
    else
      var refusal := Refused(FindingOf(row), EvidenceOf(row, posted), SpecOf(row, difference));
      if refusal.Some? then Rejected(row, refusal.value)
      else
        var draft := DraftOf(FindingOf(row), SpecOf(row, difference));
        Mismatch(row, posted, difference, draft, RequestFor(draft, traces))
  }

  /** What the review says of one row of the period. */
  function ReviewRow(s: Snapshot, period: string, row: RentRow, traces: seq<RT.Trace>): RowFinding {
    if !Complete(row) then Exceptional(row, SourceIncomplete)
    else if row.document !in s.documents then Exceptional(row, DocumentNotRetained)
    else if Claims(InPeriod(s.rentRoll, period), row.document) != 1 then Exceptional(row, SourceAmbiguous)
    else if Conflicts(s.journals, row) then Exceptional(row, PostedScopeConflict)
    else CaseOf(row, PostedRevenue(s.journals, row), traces)
  }

  // ---------------------------------------------------------------- the review loop

  function ReviewRows(s: Snapshot, period: string, rows: seq<RentRow>, traces: seq<RT.Trace>): (r: seq<RowFinding>)
    ensures |r| == |rows| && forall i :: 0 <= i < |rows| ==> r[i] == ReviewRow(s, period, rows[i], traces)
  {
    hide ReviewRow;
    if rows == [] then [] else [ReviewRow(s, period, rows[0], traces)] + ReviewRows(s, period, rows[1..], traces)
  }

  function OnlyCases(fs: seq<RowFinding>): seq<RowFinding> {
    if fs == [] then [] else (if fs[0].Exceptional? then [] else [fs[0]]) + OnlyCases(fs[1..])
  }

  function OnlyExceptions(fs: seq<RowFinding>): seq<RowFinding> {
    if fs == [] then [] else (if fs[0].Exceptional? then [fs[0]] else []) + OnlyExceptions(fs[1..])
  }

  lemma {:induction false} OnlyAppend(fs: seq<RowFinding>, f: RowFinding)
    ensures OnlyCases(fs + [f]) == OnlyCases(fs) + (if f.Exceptional? then [] else [f])
    ensures OnlyExceptions(fs + [f]) == OnlyExceptions(fs) + (if f.Exceptional? then [f] else [])
  {
    if fs == [] {
      assert fs + [f] == [f];
    } else {
      assert (fs + [f])[1..] == fs[1..] + [f];
      OnlyAppend(fs[1..], f);
    }
  }

  lemma {:induction false} OnlyPartitions(fs: seq<RowFinding>)
    ensures |OnlyCases(fs)| + |OnlyExceptions(fs)| == |fs|
  {
    if fs != [] {
      OnlyPartitions(fs[1..]);
    }
  }

  /** The refusal that ends a review, if any: that of the first rejected row. */
  function FirstRefusal(fs: seq<RowFinding>): (r: Option<Refusal>)
    ensures r.None? <==> forall i :: 0 <= i < |fs| ==> !fs[i].Rejected?
  {
    if fs == [] then None else if fs[0].Rejected? then Some(fs[0].refusal) else FirstRefusal(fs[1..])
  }

  lemma {:induction false} FirstRefusalAppend(fs: seq<RowFinding>, f: RowFinding, rest: seq<RowFinding>)
    requires FirstRefusal(fs).None?
    ensures FirstRefusal(fs + ([f] + rest)) == if f.Rejected? then Some(f.refusal) else FirstRefusal(rest)
  {
    if fs == [] {
      assert fs + ([f] + rest) == [f] + rest && ([f] + rest)[1..] == rest;
    } else {
      assert (fs + ([f] + rest))[1..] == fs[1..] + ([f] + rest);
      FirstRefusalAppend(fs[1..], f, rest);
    }
  }

  lemma RefusalAt(found: seq<RowFinding>, i: nat)
    requires i < |found| && FirstRefusal(found[..i]).None?
    ensures found[i].Rejected? ==> FirstRefusal(found) == Some(found[i].refusal)
    ensures !found[i].Rejected? ==> FirstRefusal(found[..i + 1]).None?
    ensures found[..i + 1] == found[..i] + [found[i]]
  {
    hide *;
    assert found == found[..i] + ([found[i]] + found[i + 1..]);
    FirstRefusalAppend(found[..i], found[i], found[i + 1..]);
    assert found[..i + 1] == found[..i] + ([found[i]] + []);
    FirstRefusalAppend(found[..i], found[i], []);
    NothingYet();
  }

  lemma NothingYet()
    ensures OnlyCases([]) == [] && OnlyExceptions([]) == [] && FirstRefusal([]).None?
  {
  }

  /**
   * buildRentRollRevenueReview: every row of the period becomes exactly one case or one exception, in order,
   * unless a Draft is refused: the first refusal ends the whole review.
   */
  method BuildReview(s: Snapshot, period: string, traces: seq<RT.Trace>)
    returns (cases: seq<RowFinding>, exceptions: seq<RowFinding>, refused: Option<Refusal>)
    ensures (var found := ReviewRows(s, period, InPeriod(s.rentRoll, period), traces);
             && refused == FirstRefusal(found)
             && (refused.None? ==>
                   && cases == OnlyCases(found) && exceptions == OnlyExceptions(found)
                   && |cases| + |exceptions| == |InPeriod(s.rentRoll, period)|))
  {
    hide *;
    NothingYet();
    var rows := InPeriod(s.rentRoll, period);
    ghost var found := ReviewRows(s, period, rows, traces);
    cases, exceptions, refused := [], [], None;
    var i := 0;
    while i < |rows|
      invariant 0 <= i <= |rows|
      invariant FirstRefusal(found[..i]).None?
      invariant cases == OnlyCases(found[..i]) && exceptions == OnlyExceptions(found[..i])
    {
      OnlyAppend(found[..i], found[i]);
      RefusalAt(found, i);
      var finding := ReviewRow(s, period, rows[i], traces);
      if finding.Rejected? {
        refused := Some(finding.refusal);
        return;
      }
      if finding.Exceptional? {
        exceptions := exceptions + [finding];
      } else {
        cases := cases + [finding];
      }
      i := i + 1;
    }
    assert found[..i] == found;
    OnlyPartitions(found);
  }

  // ---------------------------------------------------------------- which Drafts are refused

  lemma DifferenceLinesBalance(difference: int)
    requires difference != 0
    ensures |DifferenceLines(difference)| == 2
    ensures TotalDebit(DifferenceLines(difference)) == TotalCredit(DifferenceLines(difference)) > 0
    ensures Revenue(DifferenceLines(difference)) == difference
  {
    var ls := DifferenceLines(difference);
    assert ls[1..][1..] == [] && RENT_REVENUE != AR_CONTROL;
    assert TotalDebit(ls) == ls[0].debit + (ls[1].debit + TotalDebit(ls[1..][1..]));
    assert TotalCredit(ls) == ls[0].credit + (ls[1].credit + TotalCredit(ls[1..][1..]));
    assert Revenue(ls[1..]) == (if ls[1].account == RENT_REVENUE then ls[1].credit - ls[1].debit else 0) + Revenue(ls[1..][1..]);
  }

  lemma GatesGiven(row: RentRow, posted: int)
    ensures forall i :: 0 <= i < |GATES| ==> GATES[i] in EvidenceOf(row, posted).gates
    ensures Retains(EvidenceOf(row, posted).refs, row.document)
    ensures EvidenceOf(row, posted).schema == SCHEMA && EvidenceOf(row, posted).refs != []
  {
    var e := EvidenceOf(row, posted);
    assert e.refs[0] == row.document;
    assert e.gates == GATES;
  }

  lemma TwentyEight()
    ensures TwoDigits("28", 28)
  {
    var s := "28";
    assert s[..1] == "2" && s[..1][..0] == "";
    assert DigitsValue("2") == 2;
  }

  lemma SpecParts(row: RentRow, difference: int)
    ensures (var spec := SpecOf(row, difference);
             && spec.posting == "DRAFT" && spec.jeType != "" && spec.entity == row.scope.entity
             && spec.trace == Some(MemberTrace(row.scope.entity, row.scope.project, row.scope.property))
             && DimensionsAgree(spec.dimensions, spec.trace.value)
             && DimensionsAgree(FindingOf(row).dimensions, spec.trace.value)
             && FindingOf(row).hundredths == 96 && FindingOf(row).rule != ""
             && spec.period == row.scope.period && spec.date == row.scope.period + "-28"
             && spec.document == row.document && spec.lines == DifferenceLines(difference)
             && spec.idempotencyKey.Some? && spec.idempotencyKey.value != "")
  {
    hide NumberText;
    assert "AI-RENT-DRAFT:"[0] == 'A';
  }

  /**
   * The guards accept the difference Draft of a complete row exactly when its period is a month of the year
   * 100 or later.
   */
  lemma DraftAcceptedIff(row: RentRow, posted: int)
    requires Complete(row) && row.scheduled != posted
    ensures Refused(FindingOf(row), EvidenceOf(row, posted), SpecOf(row, row.scheduled - posted)).None?
       <==> ValidPeriod(row.scope.period) && NumberAt(row.scope.period, 0, 4) >= 100
  {
    var difference := row.scheduled - posted;
    hide SpecOf, EvidenceOf, FindingOf, DifferenceLines, ValidDate;
    SpecParts(row, difference);
    GatesGiven(row, posted);
    DifferenceLinesBalance(difference);
    if ValidPeriod(row.scope.period) {
      TwentyEight();
      DayOfPeriod(row.scope.period, "28", 28);
      assert row.scope.period + "-28" == row.scope.period + "-" + "28";
    }
  }

  // ---------------------------------------------------------------- posting the Draft

  /** The journal that the standard workflow posts from a suggested Draft. */
  function PostingOf(row: RentRow, d: Draft): Journal {
    Journal(true, d.document, Scope(d.trace.entity, d.trace.project, d.trace.property, d.period), d.lines)
  }

  function WithPosting(s: Snapshot, j: Journal): Snapshot {
    s.(journals := s.journals + [j])
  }

  lemma {:induction false} PostedAppend(js: seq<Journal>, j: Journal, row: RentRow)
    ensures PostedRevenue(js + [j], row)
         == PostedRevenue(js, row) + (if Evidences(j, row) && j.scope == row.scope then Revenue(j.lines) else 0)
  {
    hide Revenue;
    if js == [] {
      assert js + [j] == [j];
    } else {
      assert (js + [j])[1..] == js[1..] + [j];
      PostedAppend(js[1..], j, row);
    }
  }

  lemma ConflictsAppend(js: seq<Journal>, j: Journal, row: RentRow)
    ensures Conflicts(js + [j], row) <==> Conflicts(js, row) || (Evidences(j, row) && j.scope != row.scope)
  {
    if Conflicts(js, row) {
      var i :| 0 <= i < |js| && Evidences(js[i], row) && js[i].scope != row.scope;
      assert (js + [j])[i] == js[i];
    }
    assert (js + [j])[|js|] == j;
  }

  lemma {:induction false} TwoClaims(rows: seq<RentRow>, i: nat, j: nat)
    requires i < j < |rows| && rows[i].document == rows[j].document
    ensures Claims(rows, rows[i].document) >= 2
  {
    if i == 0 {
      OneClaim(rows[1..], j - 1);
    } else {
      TwoClaims(rows[1..], i - 1, j - 1);
    }
  }

  lemma {:induction false} OneClaim(rows: seq<RentRow>, j: nat)
    requires j < |rows|
    ensures Claims(rows, rows[j].document) >= 1
  {
    if j > 0 {
      OneClaim(rows[1..], j - 1);
    }
  }

  lemma MismatchParts(s: Snapshot, period: string, row: RentRow, traces: seq<RT.Trace>)
    requires ReviewRow(s, period, row, traces).Mismatch?
    ensures (var m := ReviewRow(s, period, row, traces);
             && Complete(row) && row.document in s.documents && !Conflicts(s.journals, row)
             && Claims(InPeriod(s.rentRoll, period), row.document) == 1
             && m.posted == PostedRevenue(s.journals, row) && m.difference == row.scheduled - m.posted != 0
             && m.draft == DraftOf(FindingOf(row), SpecOf(row, m.difference)))
  {
    hide Refused, DraftOf, SpecOf, FindingOf, EvidenceOf, PostedRevenue, RequestFor;
  }

  lemma PostingParts(row: RentRow, difference: int)
    ensures (var j := PostingOf(row, DraftOf(FindingOf(row), SpecOf(row, difference)));
             && j.posted && j.document == row.document && j.scope == row.scope && j.lines == DifferenceLines(difference))
  {
    hide DraftKey, ProposalIdOf, NumberText;
  }

  /** A journal for another document does not touch a row's review. */
  lemma OtherDocumentIgnored(s: Snapshot, period: string, row: RentRow, j: Journal, traces: seq<RT.Trace>)
    requires j.document != row.document
    ensures ReviewRow(WithPosting(s, j), period, row, traces) == ReviewRow(s, period, row, traces)
  {
    hide PostedRevenue, Revenue, Conflicts, Claims, CaseOf, Complete, InPeriod;
    PostedAppend(s.journals, j, row);
    ConflictsAppend(s.journals, j, row);
  }

  lemma OwnDocumentTies(s: Snapshot, period: string, row: RentRow, j: Journal, difference: int, traces: seq<RT.Trace>)
    requires Complete(row) && row.document in s.documents && !Conflicts(s.journals, row)
    requires Claims(InPeriod(s.rentRoll, period), row.document) == 1
    requires j.posted && j.document == row.document && j.scope == row.scope && Revenue(j.lines) == difference
    requires difference == row.scheduled - PostedRevenue(s.journals, row)
    ensures ReviewRow(WithPosting(s, j), period, row, traces) == Tied(row)
  {
    hide PostedRevenue, Revenue, Conflicts, Claims, Complete, InPeriod, Refused, DraftOf, SpecOf, FindingOf, EvidenceOf;
    PostedAppend(s.journals, j, row);
    ConflictsAppend(s.journals, j, row);
  }

  /**
   * Posting the suggested Draft of a mismatched row and reviewing the period again ties that row, and every
   * other row of the period is reviewed exactly as before.
   */
  lemma PostingTies(s: Snapshot, period: string, i: nat, traces: seq<RT.Trace>)
    requires i < |InPeriod(s.rentRoll, period)|
    requires ReviewRow(s, period, InPeriod(s.rentRoll, period)[i], traces).Mismatch?
    ensures (var rows := InPeriod(s.rentRoll, period);
             var after := WithPosting(s, PostingOf(rows[i], ReviewRow(s, period, rows[i], traces).draft));
             && InPeriod(after.rentRoll, period) == rows
             && ReviewRow(after, period, rows[i], traces) == Tied(rows[i])
             && forall k :: 0 <= k < |rows| && k != i ==>
                  ReviewRow(after, period, rows[k], traces) == ReviewRow(s, period, rows[k], traces))
  {
    hide *;
    var rows := InPeriod(s.rentRoll, period);
    var m := ReviewRow(s, period, rows[i], traces);
    var j := PostingOf(rows[i], m.draft);
    MismatchParts(s, period, rows[i], traces);
    PostingParts(rows[i], m.difference);
    DifferenceLinesBalance(m.difference);
    OwnDocumentTies(s, period, rows[i], j, m.difference, traces);
    PostingKeepsRoll(s, j);
    forall k | 0 <= k < |rows| && k != i
      ensures ReviewRow(WithPosting(s, j), period, rows[k], traces) == ReviewRow(s, period, rows[k], traces)
    {
      if rows[k].document == rows[i].document {
        if k < i { TwoClaims(rows, k, i); } else { TwoClaims(rows, i, k); }
      }
      OtherDocumentIgnored(s, period, rows[k], j, traces);
    }
  }

  lemma PostingKeepsRoll(s: Snapshot, j: Journal)
    ensures WithPosting(s, j).rentRoll == s.rentRoll
  {
  }

  // ---------------------------------------------------------------- approvals over every run

  lemma RequestParts(s: Snapshot, period: string, row: RentRow, traces: seq<RT.Trace>)
    requires ReviewRow(s, period, row, traces).Mismatch?
    ensures (var m := ReviewRow(s, period, row, traces);
             && m.draft.proposalId == RowProposal(row)
             && m.request == RequestFor(m.draft, traces))
  {
    hide Refused, EvidenceOf, PostedRevenue, RequestFor, NumberText, DraftKey;
  }

  /**
   * With the log of any run of the review repository, a mismatched row carries a Draft request exactly when
   * the newest committed outcome for its proposal is APPROVE; the request names that outcome's revision.
   */
  lemma RequestIffLatestApproves(
    doc: RL.Doc, log: seq<RI.Entry>, s: Snapshot, period: string, row: RentRow)
    requires RI.Inv(doc, log) && ReviewRow(s, period, row, RT.BuildTrace(doc)).Mismatch?
    ensures (var m := ReviewRow(s, period, row, RT.BuildTrace(doc));
             && (m.request.Some? <==> RT.LatestDecision(log, Str(RowProposal(row))) == Some("APPROVE"))
             && (m.request.Some? ==>
                   && m.request.value.revision == RI.Count(log, Str(RowProposal(row)))
                   && m.request.value.draft == m.draft))
  {
    hide *;
    RequestParts(s, period, row, RT.BuildTrace(doc));
    RowIsNamed(row);
    RT.ApprovalIffLatest(doc, log, Str(RowProposal(row)));
    RequestForIs(ReviewRow(s, period, row, RT.BuildTrace(doc)).draft, RT.BuildTrace(doc));
  }

  lemma RowIsNamed(row: RentRow)
    ensures Scalar(Str(RowProposal(row))) && Truthy(Str(RowProposal(row)))
  {
    assert |"AI-PROP:"| == 8;
    hide FindingOf;
  }

  lemma RequestForIs(draft: Draft, traces: seq<RT.Trace>)
    ensures (var t := RT.FindApproval(traces, Str(draft.proposalId));
             RequestFor(draft, traces)
             == if t.None? then None else Some(Request(draft.proposalId, t.value.key, t.value.revision, draft)))
  {
  }

  /** The period pattern accepts the year 99, and every difference Draft of such a period is refused. */
  lemma EarlyPeriodExample(row: RentRow, posted: int)
    requires Complete(row) && row.scope.period == "0099-07" && row.scheduled != posted
    ensures ValidPeriod(row.scope.period)
    ensures Refused(FindingOf(row), EvidenceOf(row, posted), SpecOf(row, row.scheduled - posted)).Some?
  {
    hide Refused, FindingOf, EvidenceOf, SpecOf;
    EarlyPeriod();
    DraftAcceptedIff(row, posted);
  }

  lemma EarlyPeriod()
    ensures ValidPeriod("0099-07") && NumberAt("0099-07", 0, 4) == 99
  {
    var p := "0099-07";
    EarlyMonth();
    EarlyYear();
    assert p[0..4] == "0099" && p[5..7] == "07" && p[4] == '-';
    assert forall i :: 0 <= i < 4 ==> p[i] == "0099"[i];
    assert forall i :: 5 <= i < 7 ==> p[i] == "07"[i - 5];
  }

  lemma EarlyMonth()
    ensures AllDigits("07") && DigitsValue("07") == 7
  {
    var s := "07";
    assert s[..1] == "0" && s[..1][..0] == "";
    assert DigitsValue("0") == 0;
  }

  lemma EarlyYear()
    ensures AllDigits("0099") && DigitsValue("0099") == 99
  {
    var s, t, u := "0099", "009", "00";
    assert s[..3] == t && t[..2] == u && u[..1] == "0" && u[..1][..0] == "";
    assert DigitsValue("0") == 0;
    assert DigitsValue(u) == 0;
    assert DigitsValue(t) == 9;
  }
}
