/** Prepaid amortization: the monthly schedule of a bill, and the Drafts that recognise it. Amounts are in cents. */
module Amortization {
  import opened Text
  import opened Json
  import opened Proposal

  datatype Month = Month(year: nat, month: nat)

  datatype Bill = Bill(id: string, coverageStart: string, coverageEnd: string, cents: int)

  datatype ScheduleLine = ScheduleLine(id: string, period: string, cents: int, pending: bool)

  datatype Schedule = Schedule(id: string, bill: string, lines: seq<ScheduleLine>, total: int)

  datatype Fault = NoBill | BadCoverage | EndBeforeStart | NotPositive

  datatype Created = Created(schedule: Schedule) | Failed(fault: Fault)

  // ---------------------------------------------------------------- months

  predicate Real(m: Month) {
    1 <= m.month <= 12
  }

  /** Months counted from January of the year 0. */
  function Index(m: Month): nat
    requires Real(m)
  {
    12 * m.year + m.month - 1
  }

  function AtIndex(i: nat): (m: Month)
    ensures Real(m) && Index(m) == i
  {
    Month(i / 12, i % 12 + 1)
  }

  function NextMonth(m: Month): (n: Month)
    requires Real(m)
    ensures Real(n) && Index(n) == Index(m) + 1
  {
    if m.month == 12 then Month(m.year + 1, 1) else Month(m.year, m.month + 1)
  }

  function TwoDigitText(n: nat): string {
    if n < 10 then "0" + Digits(n) else Digits(n)
  }

  /** The year is not padded. */
  function MonthCode(m: Month): string {
    Digits(m.year) + "-" + TwoDigitText(m.month)
  }

  /** YYYY-MM or YYYY-MM-DD; the day is not looked at further. */
  function CoverageMonth(text: string): (r: Option<Month>)
    ensures r.Some? ==> Real(r.value) && r.value.year <= 9999
  {
    var shaped := (|text| == 7 || (|text| == 10 && text[7] == '-' && DigitsAt(text, 8, 10)))
                  && DigitsAt(text, 0, 4) && text[4] == '-' && DigitsAt(text, 5, 7);
    if shaped && 1 <= NumberAt(text, 5, 7) <= 12 then
      FourDigits(text[0..4]);
      Some(Month(NumberAt(text, 0, 4), NumberAt(text, 5, 7)))
    else None
  }

  lemma FourDigits(s: string)
    requires |s| == 4 && AllDigits(s)
    ensures DigitsValue(s) <= 9999
  {
    var a, b, c := s[..3], s[..2], s[..1];
    assert a[..2] == b && b[..1] == c && c[..0] == [];
    assert DigitsValue(c) <= 9;
    assert DigitsValue(b) <= 99;
    assert DigitsValue(a) <= 999;
  }

  /** The loop's order on months is the order of their indices. */
  predicate NotAfter(a: Month, b: Month) {
    a.year < b.year || (a.year == b.year && a.month <= b.month)
  }

  lemma NotAfterIs(a: Month, b: Month)
    requires Real(a) && Real(b)
    ensures NotAfter(a, b) <==> Index(a) <= Index(b)
  {
  }

  /** The months from one index on, contiguous and each once. */
  predicate MonthsFrom(codes: seq<string>, from: nat) {
    forall i :: 0 <= i < |codes| ==> codes[i] == MonthCode(AtIndex(from + i))
  }

  lemma MonthsFromNext(codes: seq<string>, from: nat, m: Month)
    requires MonthsFrom(codes, from) && Real(m) && Index(m) == from + |codes|
    ensures MonthsFrom(codes + [MonthCode(m)], from)
  {
    hide MonthCode, Index;
    MonthIs(m);
  }

  /** The coverage loop ends, and lists exactly the months from start to end. */
  method CoverageMonths(start: Month, end: Month) returns (months: seq<string>)
    requires Real(start) && Real(end) && Index(start) <= Index(end)
    ensures |months| == Index(end) - Index(start) + 1 && MonthsFrom(months, Index(start))
  {
    hide *;
    months := [];
    NoMonths(Index(start));
    var cursor := start;
    while NotAfter(cursor, end)
      invariant Real(cursor) && Index(start) <= Index(cursor) <= Index(end) + 1
      invariant |months| == Index(cursor) - Index(start) && MonthsFrom(months, Index(start))
      decreases Index(end) + 1 - Index(cursor)
    {
      NotAfterIs(cursor, end);
      MonthsFromNext(months, Index(start), cursor);
      months := months + [MonthCode(cursor)];
      cursor := NextMonth(cursor);
    }
    NotAfterIs(cursor, end);
  }

  lemma NoMonths(from: nat)
    ensures MonthsFrom([], from)
  {
  }

  lemma MonthIs(m: Month)
    requires Real(m)
    ensures AtIndex(Index(m)) == m
  {
  }

  lemma TwoDigitIs(n: nat)
    requires 1 <= n <= 12
    ensures |TwoDigitText(n)| == 2 && AllDigits(TwoDigitText(n)) && DigitsValue(TwoDigitText(n)) == n
  {
    var t := TwoDigitText(n);
    DigitsRoundTrip(n);
    if n < 10 {
      assert t[..1] == "0" && DigitsValue("0") == 0;
    } else {
      assert Digits(n / 10) == [DigitChar(n / 10)];
    }
  }

  /** Different months have different codes. */
  lemma MonthCodeInjective(a: Month, b: Month)
    requires Real(a) && Real(b) && MonthCode(a) == MonthCode(b)
    ensures a == b
  {
    var x, y := Digits(a.year), Digits(b.year);
    TwoDigitIs(a.month);
    TwoDigitIs(b.month);
    assert |x| == |y|;
    assert MonthCode(a)[..|x|] == x && MonthCode(b)[..|y|] == y;
    assert MonthCode(a)[|x| + 1..] == TwoDigitText(a.month) && MonthCode(b)[|y| + 1..] == TwoDigitText(b.month);
    DigitsRoundTrip(a.year);
    DigitsRoundTrip(b.year);
  }

  // ---------------------------------------------------------------- allocation

  function LinesFor(bill: string, months: seq<string>, base: int, last: int): (r: seq<ScheduleLine>)
    ensures |r| == |months|
    ensures forall i :: 0 <= i < |months| ==>
              r[i] == ScheduleLine("AM-" + bill + "-" + months[i], months[i],
                                   if i == |months| - 1 then last else base, true)
  {
    if months == [] then []
    else [ScheduleLine("AM-" + bill + "-" + months[0], months[0], if |months| == 1 then last else base, true)]
         + LinesFor(bill, months[1..], base, last)
  }

  function LineSum(lines: seq<ScheduleLine>): int {
    if lines == [] then 0 else lines[0].cents + LineSum(lines[1..])
  }

  lemma {:induction false} LinesForSum(bill: string, months: seq<string>, base: int, last: int)
    requires months != []
    ensures LineSum(LinesFor(bill, months, base, last)) == base * (|months| - 1) + last
  {
    var lines := LinesFor(bill, months, base, last);
    if |months| == 1 {
      assert lines[1..] == [];
    } else {
      assert lines[1..] == LinesFor(bill, months[1..], base, last);
      LinesForSum(bill, months[1..], base, last);
      assert base * (|months| - 1) == base + base * (|months| - 2);
    }
  }

  /** The lines cover the months from start to end, in order, and divide the amount evenly but for the last. */
  predicate Allocated(s: Schedule, start: Month, end: Month, cents: int)
    requires Real(start) && Real(end)
  {
    && |s.lines| == Index(end) - Index(start) + 1 && |s.lines| > 0
    && (forall i :: 0 <= i < |s.lines| ==> s.lines[i].period == MonthCode(AtIndex(Index(start) + i)) && s.lines[i].pending)
    && LineSum(s.lines) == cents == s.total
    && (forall i :: 0 <= i < |s.lines| - 1 ==> s.lines[i].cents == cents / |s.lines|)
    && 0 <= s.lines[|s.lines| - 1].cents - cents / |s.lines| < |s.lines|
  }

  /** The whole of a bill's schedule, made for coverage that CoverageMonth accepts. */
  predicate ScheduleOf(s: Schedule, start: Month, end: Month, cents: int) {
    && Real(start) && Real(end) && Index(start) <= Index(end) && end.year <= 9999 && cents > 0
    && s.id != "" && s.bill != "" && Allocated(s, start, end, cents)
  }

  function StartOf(bill: Bill, coverageStart: string): Option<Month> {
    CoverageMonth(if coverageStart != "" then coverageStart else bill.coverageStart)
  }

  function EndOf(bill: Bill, coverageEnd: string): Option<Month> {
    CoverageMonth(if coverageEnd != "" then coverageEnd else bill.coverageEnd)
  }

  /** The first guard that refuses to make a schedule. */
  function CreationFault(bill: Bill, coverageStart: string, coverageEnd: string): Option<Fault> {
    var start, end := StartOf(bill, coverageStart), EndOf(bill, coverageEnd);
    if bill.id == "" then Some(NoBill)
    else if start.None? || end.None? then Some(BadCoverage)
    else if Index(end.value) < Index(start.value) then Some(EndBeforeStart)
    else if bill.cents <= 0 then Some(NotPositive)
    else None
  }

  /** createAmortizationSchedule. */
  method CreateSchedule(bill: Bill, coverageStart: string, coverageEnd: string) returns (r: Created)
    ensures CreationFault(bill, coverageStart, coverageEnd).Some? ==>
              r == Failed(CreationFault(bill, coverageStart, coverageEnd).value)
    ensures CreationFault(bill, coverageStart, coverageEnd).None? ==>
              && r.Created? && r.schedule.bill == bill.id
              && ScheduleOf(r.schedule, StartOf(bill, coverageStart).value, EndOf(bill, coverageEnd).value, bill.cents)
  {
    hide CoverageMonth, MonthCode, MonthsFrom, Allocated;
    if bill.id == "" {
      return Failed(NoBill);
    }
    var from, to := StartOf(bill, coverageStart), EndOf(bill, coverageEnd);
    if from.None? || to.None? {
      return Failed(BadCoverage);
    }
    var start, end := from.value, to.value;
    NotAfterIs(start, end);
    if end.year < start.year || (end.year == start.year && end.month < start.month) {
      return Failed(EndBeforeStart);
    }
    if bill.cents <= 0 {
      return Failed(NotPositive);
    }
    var months := CoverageMonths(start, end);
    var base := bill.cents / |months|;
    var remainder := bill.cents - base * |months|;
    var lines := LinesFor(bill.id, months, base, base + remainder);
    LinesAllocate(bill.id, months, start, end, bill.cents);
    assert "AM-" + bill.id != "" by {
      assert ("AM-" + bill.id)[0] == 'A';
    }
    r := Created(Schedule("AM-" + bill.id, bill.id, lines, bill.cents));
  }

  lemma LinesAllocate(bill: string, months: seq<string>, start: Month, end: Month, cents: int)
    requires Real(start) && Real(end) && Index(start) <= Index(end)
    requires |months| == Index(end) - Index(start) + 1 && MonthsFrom(months, Index(start))
    ensures (var base := cents / |months|;
             var lines := LinesFor(bill, months, base, base + (cents - base * |months|));
             Allocated(Schedule("AM-" + bill, bill, lines, cents), start, end, cents))
  {
    hide MonthCode, AtIndex, LineSum, Index, LinesFor;
    var base := cents / |months|;
    var last := base + (cents - base * |months|);
    LinesForSum(bill, months, base, last);
    Division(cents, |months|);
    AllocatedLines(Schedule("AM-" + bill, bill, LinesFor(bill, months, base, last), cents), start, end, cents, base, last);
  }

  lemma AllocatedLines(s: Schedule, start: Month, end: Month, cents: int, base: int, last: int)
    requires Real(start) && Real(end) && |s.lines| == Index(end) - Index(start) + 1 && |s.lines| > 0
    requires forall i :: 0 <= i < |s.lines| ==>
               s.lines[i].period == MonthCode(AtIndex(Index(start) + i)) && s.lines[i].pending
               && s.lines[i].cents == if i == |s.lines| - 1 then last else base
    requires base == cents / |s.lines| && 0 <= last - base < |s.lines|
    requires LineSum(s.lines) == cents == s.total
    ensures Allocated(s, start, end, cents)
  {
    hide MonthCode, AtIndex, LineSum, Index;
  }

  lemma Division(cents: int, n: int)
    requires n > 0
    ensures 0 <= cents - cents / n * n < n
    ensures cents / n * (n - 1) + (cents / n + (cents - cents / n * n)) == cents
  {
    assert cents / n * (n - 1) == cents / n * n - cents / n;
  }

  lemma LinePeriod(s: Schedule, start: Month, end: Month, cents: int, i: nat)
    requires Real(start) && Real(end) && Allocated(s, start, end, cents) && i < |s.lines|
    ensures s.lines[i].period == MonthCode(AtIndex(Index(start) + i)) && s.lines[i].pending
    ensures AtIndex(Index(start) + i).year <= end.year
    ensures i == |s.lines| - 1 ==> AtIndex(Index(start) + i) == end
  {
    AllocatedParts(s, start, end, cents);
    hide *;
    IndexOrder(Index(start) + i, end);
  }

  lemma AllocatedParts(s: Schedule, start: Month, end: Month, cents: int)
    requires Real(start) && Real(end) && Allocated(s, start, end, cents)
    ensures |s.lines| == Index(end) - Index(start) + 1
    ensures forall i :: 0 <= i < |s.lines| ==>
              s.lines[i].period == MonthCode(AtIndex(Index(start) + i)) && s.lines[i].pending
  {
    hide MonthCode, AtIndex, Index, LineSum;
  }

  lemma IndexOrder(i: nat, end: Month)
    requires Real(end) && i <= Index(end)
    ensures AtIndex(i).year <= end.year && (i == Index(end) ==> AtIndex(i) == end)
  {
    MonthIs(end);
    NotAfterIs(AtIndex(i), end);
  }

  /** No two lines are of one month. */
  lemma NoMonthTwice(s: Schedule, start: Month, end: Month, cents: int, i: nat, j: nat)
    requires Real(start) && Real(end) && Allocated(s, start, end, cents)
    requires i < |s.lines| && j < |s.lines| && s.lines[i].period == s.lines[j].period
    ensures i == j
  {
    hide MonthCode, Allocated;
    LinePeriod(s, start, end, cents, i);
    LinePeriod(s, start, end, cents, j);
    MonthCodeInjective(AtIndex(Index(start) + i), AtIndex(Index(start) + j));
  }

  // ---------------------------------------------------------------- monthly Drafts

  datatype Prepared = Prepared(draft: Draft) | MissingInput | NotAvailable | Refusing(refusal: Refusal)

  function LineOf(lines: seq<ScheduleLine>, period: string): Option<ScheduleLine> {
    if lines == [] then None else if lines[0].period == period then Some(lines[0]) else LineOf(lines[1..], period)
  }

  function DueFinding(s: Schedule, period: string, entity: string): Finding {
    Finding("PREPAID_AMORTIZATION:AMORTIZATION_DUE:" + entity + ":" + period + ":_:_:" + s.id, "AMORTIZATION_DUE", 99,
            Dimensions(Some(entity), None, None))
  }

  function DueEvidence(s: Schedule): Evidence {
    Evidence(SCHEMA, ["bill:" + s.bill, "schedule:" + s.id],
             ["DRAFT_ONLY", "HUMAN_REVIEW_REQUIRED", "NO_AUTOMATIC_POSTING"])
  }

  function DueLines(cents: int, expense: string, prepaid: string): seq<Line> {
    [Line(expense, cents, 0), Line(prepaid, 0, cents)]
  }

  function DueSpec(s: Schedule, period: string, entity: string, lines: seq<Line>): Spec {
    Spec("DRAFT", "AUTO", entity, Dimensions(Some(entity), None, None),
         Some(MemberTrace(entity, "null", "null")), period, period + "-01", s.bill, None, lines)
  }

  /** prepareAmortizationDraftJE. */
  function PrepareDraft(s: Schedule, period: string, entity: string, expense: string, prepaid: string): Prepared {
    if s.id == "" || period == "" || entity == "" then MissingInput
    else
      var line := LineOf(s.lines, period);
      if line.None? || !line.value.pending || line.value.cents <= 0 then NotAvailable
      else
        var finding := DueFinding(s, period, entity);
        var spec := DueSpec(s, period, entity, DueLines(line.value.cents, expense, prepaid));
        var refusal := Refused(finding, DueEvidence(s), spec);
        if refusal.Some? then Refusing(refusal.value) else Prepared(DraftOf(finding, spec))
  }

  lemma DueEvidenceHolds(s: Schedule)
    ensures DueEvidence(s).schema == SCHEMA && DueEvidence(s).refs != [] && Retains(DueEvidence(s).refs, s.bill)
    ensures forall i :: 0 <= i < |GATES| ==> GATES[i] in DueEvidence(s).gates
  {
    var e := DueEvidence(s);
    assert e.gates == GATES;
    assert "bill:" == "bill" + ":";
    assert e.refs[0] == "bill" + (":" + s.bill);
    assert EndsWith(e.refs[0], ":" + s.bill);
  }

  lemma DueLinesBalance(cents: int, expense: string, prepaid: string)
    requires cents > 0
    ensures (var lines := DueLines(cents, expense, prepaid);
             |lines| == 2 && TotalDebit(lines) == TotalCredit(lines) == cents)
  {
    var ls := DueLines(cents, expense, prepaid);
    assert ls[1..][1..] == [];
    assert TotalDebit(ls) == ls[0].debit + (ls[1].debit + TotalDebit(ls[1..][1..]));
    assert TotalCredit(ls) == ls[0].credit + (ls[1].credit + TotalCredit(ls[1..][1..]));
  }

  lemma ZeroOne()
    ensures TwoDigits("01", 1)
  {
    var s := "01";
    assert s[..1] == "0" && s[..1][..0] == "";
    assert DigitsValue("0") == 0;
  }

  lemma {:induction false} DigitsLength(n: nat)
    ensures n < 10000 ==> |Digits(n)| <= 4
    ensures n <= 9999 && |Digits(n)| == 4 <==> 1000 <= n <= 9999
  {
    if n >= 10 {
      var a := n / 10;
      if a >= 10 {
        var b := a / 10;
        if b >= 10 {
          var c := b / 10;
          assert Digits(b) == Digits(c) + [DigitChar(b % 10)];
        }
        assert Digits(a) == Digits(b) + [DigitChar(a % 10)];
      }
      assert Digits(n) == Digits(a) + [DigitChar(n % 10)];
    }
  }

  /** A month's code is a period exactly when its year has four digits. */
  lemma CodeIsPeriodIff(m: Month)
    requires Real(m) && m.year <= 9999
    ensures ValidPeriod(MonthCode(m)) <==> m.year >= 1000
    ensures m.year >= 1000 ==> NumberAt(MonthCode(m), 0, 4) == m.year
  {
    var c := MonthCode(m);
    DigitsLength(m.year);
    TwoDigitIs(m.month);
    assert |c| == |Digits(m.year)| + 3;
    if m.year >= 1000 {
      assert c[0..4] == Digits(m.year) && c[5..7] == TwoDigitText(m.month);
      DigitsRoundTrip(m.year);
      forall i | 0 <= i < 4
        ensures IsDigit(c[i])
      {
        assert c[i] == Digits(m.year)[i];
      }
      forall i | 5 <= i < 7
        ensures IsDigit(c[i])
      {
        assert c[i] == TwoDigitText(m.month)[i - 5];
      }
    }
  }

  /** A positive pending line gives a Draft exactly when its year has four digits. */
  lemma DraftPreparedIff(s: Schedule, m: Month, entity: string, expense: string, prepaid: string)
    requires Real(m) && m.year <= 9999 && s.id != "" && s.bill != "" && entity != ""
    requires LineOf(s.lines, MonthCode(m)).Some?
    ensures (var line, r := LineOf(s.lines, MonthCode(m)).value, PrepareDraft(s, MonthCode(m), entity, expense, prepaid);
             && (r == NotAvailable <==> !line.pending || line.cents <= 0)
             && (r.Prepared? <==> line.pending && line.cents > 0 && m.year >= 1000)
             && (r.Prepared? ==> r.draft.lines == DueLines(line.cents, expense, prepaid)))
  {
    hide DueEvidence, DueFinding, DueSpec, DueLines, ValidDate, ValidPeriod, MonthCode, Refused;
    var line := LineOf(s.lines, MonthCode(m)).value;
    assert MonthCode(m) != "" by {
      CodeNotEmpty(m);
    }
    if line.pending && line.cents > 0 {
      DueLinesBalance(line.cents, expense, prepaid);
      DueRefused(s, m, entity, DueLines(line.cents, expense, prepaid));
      DueSpecIs(s, MonthCode(m), entity, DueLines(line.cents, expense, prepaid));
    }
  }

  lemma CodeNotEmpty(m: Month)
    ensures MonthCode(m) != ""
  {
  }

  lemma DueSpecIs(s: Schedule, period: string, entity: string, lines: seq<Line>)
    ensures (var spec, finding := DueSpec(s, period, entity, lines), DueFinding(s, period, entity);
             && spec.posting == "DRAFT" && spec.jeType != "" && spec.entity == entity
             && spec.trace == Some(MemberTrace(entity, "null", "null"))
             && DimensionsAgree(spec.dimensions, spec.trace.value)
             && DimensionsAgree(finding.dimensions, spec.trace.value)
             && finding.hundredths == 99 && finding.rule != ""
             && spec.period == period && spec.date == period + "-01"
             && spec.document == s.bill && spec.lines == lines && spec.idempotencyKey.None?)
  {
  }

  lemma DueRefused(s: Schedule, m: Month, entity: string, lines: seq<Line>)
    requires Real(m) && m.year <= 9999 && s.bill != "" && entity != ""
    requires |lines| == 2 && TotalDebit(lines) == TotalCredit(lines) > 0
    ensures Refused(DueFinding(s, MonthCode(m), entity), DueEvidence(s), DueSpec(s, MonthCode(m), entity, lines)).None?
       <==> m.year >= 1000
  {
    hide DueEvidence, DueFinding, DueSpec, ValidDate, ValidPeriod, MonthCode, NumberAt, TotalDebit, TotalCredit;
    var code := MonthCode(m);
    DueSpecIs(s, code, entity, lines);
    DueEvidenceHolds(s);
    CodeIsPeriodIff(m);
    if m.year >= 1000 {
      ZeroOne();
      DayOfPeriod(code, "01", 1);
      assert code + "-01" == code + "-" + "01";
    }
  }

  // ---------------------------------------------------------------- clearing the prepaid account

  function NetCredit(lines: seq<Line>, account: string): int {
    if lines == [] then 0
    else (if lines[0].account == account then lines[0].credit - lines[0].debit else 0) + NetCredit(lines[1..], account)
  }

  /** What one line's Draft, if there is one, takes off an account. */
  function Relief(r: Prepared, account: string): int {
    if r.Prepared? then NetCredit(r.draft.lines, account) else 0
  }

  /** What the Drafts of the first k lines take off the prepaid account. */
  function Cleared(s: Schedule, k: nat, entity: string, expense: string, prepaid: string): int
    requires k <= |s.lines|
  {
    if k == 0 then 0
    else
      Cleared(s, k - 1, entity, expense, prepaid)
      + Relief(PrepareDraft(s, s.lines[k - 1].period, entity, expense, prepaid), prepaid)
  }

  lemma {:induction false} LineOfIs(lines: seq<ScheduleLine>, i: nat)
    requires i < |lines| && forall k :: 0 <= k < i ==> lines[k].period != lines[i].period
    ensures LineOf(lines, lines[i].period) == Some(lines[i])
  {
    if i > 0 {
      LineOfIs(lines[1..], i - 1);
    }
  }

  lemma DueNetCredit(cents: int, expense: string, prepaid: string)
    requires expense != prepaid
    ensures NetCredit(DueLines(cents, expense, prepaid), prepaid) == cents
  {
    var ls := DueLines(cents, expense, prepaid);
    assert ls[1..][1..] == [];
    assert NetCredit(ls, prepaid) == 0 + NetCredit(ls[1..], prepaid);
  }

  function YearOf(start: Month, i: nat): nat
    requires Real(start)
  {
    AtIndex(Index(start) + i).year
  }

  lemma LineCleared(s: Schedule, start: Month, end: Month, cents: int, i: nat, entity: string, expense: string, prepaid: string)
    requires ScheduleOf(s, start, end, cents) && entity != "" && expense != prepaid && i < |s.lines|
    ensures Relief(PrepareDraft(s, s.lines[i].period, entity, expense, prepaid), prepaid)
         == if s.lines[i].cents > 0 && YearOf(start, i) >= 1000 then s.lines[i].cents else 0
  {
    hide Allocated, MonthCode, PrepareDraft, NetCredit, DueLines;
    LinePeriod(s, start, end, cents, i);
    forall k | 0 <= k < i
      ensures s.lines[k].period != s.lines[i].period
    {
      if s.lines[k].period == s.lines[i].period {
        NoMonthTwice(s, start, end, cents, k, i);
      }
    }
    LineOfIs(s.lines, i);
    DraftPreparedIff(s, AtIndex(Index(start) + i), entity, expense, prepaid);
    DueNetCredit(s.lines[i].cents, expense, prepaid);
  }

  predicate Recognised(s: Schedule, start: Month, i: nat)
    requires Real(start) && i < |s.lines|
  {
    s.lines[i].cents > 0 ==> YearOf(start, i) >= 1000
  }

  lemma {:induction false} LineSumNext(lines: seq<ScheduleLine>, k: nat)
    requires k < |lines|
    ensures LineSum(lines[..k + 1]) == LineSum(lines[..k]) + lines[k].cents
  {
    if k == 0 {
      assert lines[..1][1..] == [];
    } else {
      assert lines[..k + 1][1..] == lines[1..][..k] && lines[..k][1..] == lines[1..][..k - 1];
      LineSumNext(lines[1..], k - 1);
    }
  }

  lemma {:induction false} ClearedFalls(
    s: Schedule, start: Month, end: Month, cents: int, k: nat, entity: string, expense: string, prepaid: string)
    requires ScheduleOf(s, start, end, cents) && entity != "" && expense != prepaid && k <= |s.lines|
    ensures Cleared(s, k, entity, expense, prepaid) <= LineSum(s.lines[..k])
    ensures Cleared(s, k, entity, expense, prepaid) == LineSum(s.lines[..k])
       <==> forall i :: 0 <= i < k ==> Recognised(s, start, i)
  {
    hide PrepareDraft, NetCredit, LineSum, ScheduleOf, Allocated, YearOf, Relief;
    if k == 0 {
      assert s.lines[..0] == [];
      NoLines();
    } else {
      ClearedFalls(s, start, end, cents, k - 1, entity, expense, prepaid);
      LineSumNext(s.lines, k - 1);
      LineCleared(s, start, end, cents, k - 1, entity, expense, prepaid);
      NoNegativeLine(s, start, end, cents, k - 1);
      assert (forall i :: 0 <= i < k ==> Recognised(s, start, i))
        <==> (forall i :: 0 <= i < k - 1 ==> Recognised(s, start, i)) && Recognised(s, start, k - 1);
    }
  }

  lemma NoLines()
    ensures LineSum([]) == 0
  {
  }

  lemma NoNegativeLine(s: Schedule, start: Month, end: Month, cents: int, i: nat)
    requires ScheduleOf(s, start, end, cents) && i < |s.lines|
    ensures Real(start) && s.lines[i].cents >= 0
    ensures i == |s.lines| - 1 || cents >= |s.lines| <==> s.lines[i].cents > 0
    ensures YearOf(start, i) >= start.year
    ensures i == |s.lines| - 1 ==> YearOf(start, i) == end.year
    ensures i == 0 ==> YearOf(start, i) == start.year
  {
    hide MonthCode;
    LinePeriod(s, start, end, cents, i);
    MonthIs(start);
    QuotientPositive(cents, |s.lines|);
    if i == |s.lines| - 1 {
      LastLinePositive(s, cents);
    }
  }

  lemma QuotientPositive(cents: int, n: int)
    requires n > 0 && cents > 0
    ensures cents / n >= 0 && (cents / n > 0 <==> cents >= n)
  {
  }

  /** The last line also carries the remainder, so it is never empty. */
  lemma LastLinePositive(s: Schedule, cents: int)
    requires |s.lines| > 0 && cents > 0 && LineSum(s.lines) == cents
    requires forall i :: 0 <= i < |s.lines| - 1 ==> s.lines[i].cents == cents / |s.lines|
    requires 0 <= s.lines[|s.lines| - 1].cents - cents / |s.lines|
    ensures s.lines[|s.lines| - 1].cents > 0
  {
    var n := |s.lines|;
    QuotientPositive(cents, n);
    if cents < n {
      assert cents / n == 0;
      ZeroLines(s.lines, n - 1);
      LineSumNext(s.lines, n - 1);
      assert s.lines[..n] == s.lines;
    }
  }

  lemma {:induction false} ZeroLines(lines: seq<ScheduleLine>, k: nat)
    requires k <= |lines| && forall i :: 0 <= i < k ==> lines[i].cents == 0
    ensures LineSum(lines[..k]) == 0
  {
    if k > 0 {
      ZeroLines(lines, k - 1);
      LineSumNext(lines, k - 1);
    }
  }

  /**
   * The Drafts of all lines together clear the prepaid account by exactly the bill if and only if the first month
   * that carries money, which is the last one when there are fewer cents than months, has a four-digit year.
   */
  lemma DraftsClearBillIff(s: Schedule, start: Month, end: Month, cents: int, entity: string, expense: string, prepaid: string)
    requires ScheduleOf(s, start, end, cents) && entity != "" && expense != prepaid
    ensures Cleared(s, |s.lines|, entity, expense, prepaid) == cents
       <==> (if cents >= |s.lines| then start.year else end.year) >= 1000
  {
    hide *;
    var n := |s.lines|;
    ScheduleHasLines(s, start, end, cents);
    ClearedFalls(s, start, end, cents, n, entity, expense, prepaid);
    assert s.lines[..n] == s.lines;
    NoNegativeLine(s, start, end, cents, n - 1);
    NoNegativeLine(s, start, end, cents, 0);
    forall i | 0 <= i < n
      ensures Recognised(s, start, i) <==> (s.lines[i].cents > 0 ==> YearOf(start, i) >= 1000)
      ensures i == n - 1 || cents >= n <==> s.lines[i].cents > 0
      ensures YearOf(start, i) >= start.year
    {
      NoNegativeLine(s, start, end, cents, i);
      RecognisedIs(s, start, i);
    }
    assert Recognised(s, start, 0) <==> (s.lines[0].cents > 0 ==> YearOf(start, 0) >= 1000);
    assert Recognised(s, start, n - 1) <==> (s.lines[n - 1].cents > 0 ==> YearOf(start, n - 1) >= 1000);
  }

  lemma ScheduleHasLines(s: Schedule, start: Month, end: Month, cents: int)
    requires ScheduleOf(s, start, end, cents)
    ensures |s.lines| > 0 && Real(start) && LineSum(s.lines) == cents
  {
    hide LineSum;
  }

  lemma RecognisedIs(s: Schedule, start: Month, i: nat)
    requires Real(start) && i < |s.lines|
    ensures Recognised(s, start, i) <==> (s.lines[i].cents > 0 ==> YearOf(start, i) >= 1000)
  {
    hide YearOf;
  }

  /** One cent for the last month of the year 999. */
  const EARLY_BILL := Bill("B", "0999-12", "0999-12", 1)

  lemma DigitValues(s: string)
    requires AllDigits(s)
    ensures |s| == 2 ==> DigitsValue(s) == 10 * (s[0] as nat - '0' as nat) + (s[1] as nat - '0' as nat)
    ensures |s| == 4 ==>
              DigitsValue(s) == 1000 * (s[0] as nat - '0' as nat) + 100 * (s[1] as nat - '0' as nat)
                                + 10 * (s[2] as nat - '0' as nat) + (s[3] as nat - '0' as nat)
  {
    if |s| == 2 {
      assert s[..1][..0] == [] && DigitsValue(s[..1]) == s[0] as nat - '0' as nat;
    }
    if |s| == 4 {
      DigitValues(s[..2]);
      assert s[..3][..2] == s[..2];
      assert DigitsValue(s[..3]) == 10 * DigitsValue(s[..2]) + (s[2] as nat - '0' as nat);
    }
  }

  lemma EarlyCoverage()
    ensures CoverageMonth("0999-12") == Some(Month(999, 12))
  {
    var t := "0999-12";
    assert t[0] == '0' && t[1] == '9' && t[2] == '9' && t[3] == '9' && t[4] == '-' && t[5] == '1' && t[6] == '2';
    hide DigitsValue;
    DigitValues(t[0..4]);
    DigitValues(t[5..7]);
  }

  /** A bill of the year 999 gets a schedule, and no schedule that it can get is ever cleared by its Drafts. */
  lemma EarlyYearExample()
    ensures CreationFault(EARLY_BILL, "", "").None?
    ensures (var start, end := StartOf(EARLY_BILL, "").value, EndOf(EARLY_BILL, "").value;
             && ScheduleOf(Schedule("AM-B", "B", LinesFor("B", ["999-12"], 1, 1), 1), start, end, EARLY_BILL.cents)
             && forall s :: ScheduleOf(s, start, end, EARLY_BILL.cents) ==>
                  Cleared(s, |s.lines|, "E", "632000", "140100") != EARLY_BILL.cents)
  {
    hide MonthCode, LinesFor, Cleared, CoverageMonth, ScheduleOf, MonthsFrom;
    var m := Month(999, 12);
    EarlyCoverage();
    EarlySchedule();
    AccountsDiffer();
    forall s | ScheduleOf(s, m, m, 1)
      ensures Cleared(s, |s.lines|, "E", "632000", "140100") != 1
    {
      DraftsClearBillIff(s, m, m, 1, "E", "632000", "140100");
    }
  }

  lemma EarlySchedule()
    ensures ScheduleOf(Schedule("AM-B", "B", LinesFor("B", ["999-12"], 1, 1), 1), Month(999, 12), Month(999, 12), 1)
  {
    hide MonthCode, LinesFor;
    var m := Month(999, 12);
    EarlyMonthCode();
    MonthIs(m);
    assert MonthsFrom(["999-12"], Index(m));
    LinesAllocate("B", ["999-12"], m, m, 1);
    assert "AM-" + "B" == "AM-B";
    AccountsDiffer();
  }

  lemma EarlyMonthCode()
    ensures MonthCode(Month(999, 12)) == "999-12"
  {
    assert Digits(9) == "9" && Digits(99) == "9" + "9" && Digits(999) == "99" + "9";
    assert Digits(1) == "1" && Digits(12) == "1" + "2";
  }

  lemma AccountsDiffer()
    ensures "632000" != "140100" && "E" != "" && "B" != "" && "AM-B" != ""
  {
    assert "632000"[0] != "140100"[0];
  }
}
