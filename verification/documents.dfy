/** AP bills and AR invoices: the commands that draft their journals, and the callback of a posted journal. */
module Documents {
  import opened Json

  datatype Kind = ApBill | ArInvoice

  datatype Status =
    | Draft | PendingApproval | ApprovedPendingPost | Approved | OpenPendingPost | Open | PaymentPending | Paid

  datatype BillLine = BillLine(account: string, cents: int)

  /** A bill or an invoice; `draft` and `payment` link it to its journals. */
  datatype Document = Document(
    kind: Kind, id: int, cents: int, status: Status, period: string, accountingDate: string, ownDate: string,
    maker: string, lines: seq<BillLine>, revenueAccount: string, cashAccount: string, bankMember: string,
    draft: Link, payment: Link)

  datatype Link = Link(journal: int, source: string)

  datatype Line = Line(account: string, debit: int, credit: int)

  datatype JournalStatus = DraftJournal | Posted | Reversed

  datatype Journal = Journal(
    id: int, system: string, source: string, kind: Kind, document: int, status: JournalStatus, lines: seq<Line>)

  datatype Period = Period(code: string, isOpen: bool)

  /** The caller's part of a command. */
  datatype Call = Call(
    user: string, allowed: bool, period: Option<Period>, existing: seq<Journal>, journal: int, source: string,
    paymentId: string, paymentDate: string, paymentPeriod: string)

  datatype Refusal =
    | PaymentIdRequired | PermissionDenied | PeriodNotConfigured | PeriodDateMismatch | PeriodNotOpen | AmountInvalid
    | SourceRequired | DuplicateSource | WrongState | MakerCannotApprove | LinesRequired | LineInvalid | TotalMismatch
    | BankMemberRequired

  datatype Reply = Accepted(document: Document, journal: Journal) | Refused(refusal: Refusal)

  const PAYABLE := "291001"
  const RECEIVABLE := "120200"
  const OPERATING_CASH := "111000"
  const RENT := "421803"

  // ---------------------------------------------------------------- guards

  function AccountingDate(d: Document, paymentDate: string): string {
    if d.accountingDate != "" then d.accountingDate else if d.ownDate != "" then d.ownDate else paymentDate
  }

  predicate InPeriod(date: string, period: string) {
    date != "" && (if |date| <= 7 then date else date[..7]) == period
  }

  predicate DuplicateOf(j: Journal, system: string, source: string) {
    j.system == system && j.source == source && !j.status.Reversed?
  }

  predicate AlreadyDrafted(existing: seq<Journal>, system: string, source: string) {
    exists i :: 0 <= i < |existing| && DuplicateOf(existing[i], system, source)
  }

  /** The guard list that AP and AR commands share, in order. */
  function Guard(d: Document, date: string, call: Call, system: string, source: string): Option<Refusal> {
    if !call.allowed then Some(PermissionDenied)
    else if call.period.None? then Some(PeriodNotConfigured)
    else if !InPeriod(date, d.period) || call.period.value.code != d.period then Some(PeriodDateMismatch)
    else if !call.period.value.isOpen then Some(PeriodNotOpen)
    else if d.cents <= 0 then Some(AmountInvalid)
    else if source == "" then Some(SourceRequired)
    else if AlreadyDrafted(call.existing, system, source) then Some(DuplicateSource)
    else None
  }

  // ---------------------------------------------------------------- commands

  predicate ValidLine(l: BillLine) {
    l.account != "" && l.cents > 0
  }

  function Total(lines: seq<BillLine>): int {
    if lines == [] then 0 else Total(lines[..|lines| - 1]) + lines[|lines| - 1].cents
  }

  function Debits(lines: seq<BillLine>): (r: seq<Line>)
    ensures |r| == |lines| && forall i :: 0 <= i < |r| ==> r[i] == Line(lines[i].account, lines[i].cents, 0)
  {
    if lines == [] then [] else Debits(lines[..|lines| - 1]) + [Line(lines[|lines| - 1].account, lines[|lines| - 1].cents, 0)]
  }

  /** The bill's debit lines and their total, or nothing when a line is invalid. */
  method DebitLines(lines: seq<BillLine>) returns (r: Option<seq<Line>>, total: int)
    ensures r.Some? <==> forall i :: 0 <= i < |lines| ==> ValidLine(lines[i])
    ensures r.Some? ==> r.value == Debits(lines) && total == Total(lines)
  {
    var debits: seq<Line> := [];
    total := 0;
    var i := 0;
    while i < |lines|
      invariant 0 <= i <= |lines|
      invariant debits == Debits(lines[..i]) && total == Total(lines[..i])
      invariant forall k :: 0 <= k < i ==> ValidLine(lines[k])
    {
      if lines[i].account == "" || lines[i].cents <= 0 {
        return None, total;
      }
      assert lines[..i + 1][..i] == lines[..i];
      total := total + lines[i].cents;
      debits := debits + [Line(lines[i].account, lines[i].cents, 0)];
      i := i + 1;
    }
    assert lines[..i] == lines;
    r := Some(debits);
  }

  /** approveBillCommand. */
  function ApproveBill(bill: Document, call: Call): Reply {
    var blocked := Guard(bill, AccountingDate(bill, ""), call, "AP", call.source);
    if blocked.Some? then Refused(blocked.value)
    else if !bill.status.PendingApproval? then Refused(WrongState)
    else if bill.maker == call.user then Refused(MakerCannotApprove)
    else if bill.lines == [] then Refused(LinesRequired)
    else if exists i :: 0 <= i < |bill.lines| && !ValidLine(bill.lines[i]) then Refused(LineInvalid)
    else if Total(bill.lines) != bill.cents then Refused(TotalMismatch)
    else
      Accepted(bill.(status := ApprovedPendingPost, draft := Link(call.journal, call.source)),
               Journal(call.journal, "AP", call.source, ApBill, bill.id, DraftJournal,
                       Debits(bill.lines) + [Line(PAYABLE, 0, Total(bill.lines))]))
  }

  /** The command as it runs, with its loop over the bill's lines. */
  method RunApproveBill(bill: Document, call: Call) returns (r: Reply)
    ensures r == ApproveBill(bill, call)
  {
    hide Guard, AccountingDate, Total, Debits, ValidLine;
    var blocked := Guard(bill, AccountingDate(bill, ""), call, "AP", call.source);
    if blocked.Some? {
      return Refused(blocked.value);
    }
    if !bill.status.PendingApproval? {
      return Refused(WrongState);
    }
    if bill.maker == call.user {
      return Refused(MakerCannotApprove);
    }
    if bill.lines == [] {
      return Refused(LinesRequired);
    }
    var lines, total := DebitLines(bill.lines);
    if lines.None? {
      return Refused(LineInvalid);
    }
    if total != bill.cents {
      return Refused(TotalMismatch);
    }
    r := Accepted(bill.(status := ApprovedPendingPost, draft := Link(call.journal, call.source)),
                  Journal(call.journal, "AP", call.source, ApBill, bill.id, DraftJournal,
                          lines.value + [Line(PAYABLE, 0, total)]));
  }

  function CashAccount(d: Document): string {
    if d.cashAccount == "" then OPERATING_CASH else d.cashAccount
  }

  /** A payment belongs to its own date and period. */
  function Occurrence(d: Document, call: Call): Document {
    d.(accountingDate := call.paymentDate, period := call.paymentPeriod)
  }

  /** payBillCommand. */
  function PayBill(bill: Document, call: Call): Reply {
    if call.paymentId == "" then Refused(PaymentIdRequired)
    else
      var source := "AP-PAYMENT:" + call.paymentId;
      var paid := Occurrence(bill, call);
      var blocked := Guard(paid, AccountingDate(paid, call.paymentDate), call, "AP_PAYMENT", source);
      if blocked.Some? then Refused(blocked.value)
      else if !bill.status.Approved? then Refused(WrongState)
      else if CashAccount(bill) == OPERATING_CASH && bill.bankMember == "" then Refused(BankMemberRequired)
      else
        Accepted(bill.(status := PaymentPending, payment := Link(call.journal, source)),
                 Journal(call.journal, "AP_PAYMENT", source, ApBill, bill.id, DraftJournal,
                         [Line(PAYABLE, bill.cents, 0), Line(CashAccount(bill), 0, bill.cents)]))
  }

  function RevenueAccount(d: Document): string {
    if d.revenueAccount == "" then RENT else d.revenueAccount
  }

  /** createInvoiceCommand. */
  function CreateInvoice(invoice: Document, call: Call): Reply {
    var blocked := Guard(invoice, AccountingDate(invoice, ""), call, "AR", call.source);
    if blocked.Some? then Refused(blocked.value)
    else if !invoice.status.Draft? && !invoice.status.PendingApproval? then Refused(WrongState)
    else if invoice.status.PendingApproval? && invoice.maker == call.user then Refused(MakerCannotApprove)
    else
      Accepted(invoice.(status := OpenPendingPost, draft := Link(call.journal, call.source)),
               Journal(call.journal, "AR", call.source, ArInvoice, invoice.id, DraftJournal,
                       [Line(RECEIVABLE, invoice.cents, 0), Line(RevenueAccount(invoice), 0, invoice.cents)]))
  }

  /** receivePaymentCommand. */
  function ReceivePayment(invoice: Document, call: Call): Reply {
    if call.paymentId == "" then Refused(PaymentIdRequired)
    else
      var source := "AR-PAYMENT:" + call.paymentId;
      var paid := Occurrence(invoice, call);
      var blocked := Guard(paid, AccountingDate(paid, call.paymentDate), call, "AR_PAYMENT", source);
      if blocked.Some? then Refused(blocked.value)
      else if !invoice.status.Open? then Refused(WrongState)
      else if CashAccount(invoice) == OPERATING_CASH && invoice.bankMember == "" then Refused(BankMemberRequired)
      else
        Accepted(invoice.(status := PaymentPending, payment := Link(call.journal, source)),
                 Journal(call.journal, "AR_PAYMENT", source, ArInvoice, invoice.id, DraftJournal,
                         [Line(CashAccount(invoice), invoice.cents, 0), Line(RECEIVABLE, 0, invoice.cents)]))
  }

  // ---------------------------------------------------------------- the callback of a posted journal

  datatype Transition = Moved(documents: seq<Document>) | Already | Rejected

  function DocumentOf(documents: seq<Document>, kind: Kind, id: int): Option<Document> {
    if documents == [] then None
    else if documents[0].kind == kind && documents[0].id == id then Some(documents[0])
    else DocumentOf(documents[1..], kind, id)
  }

  function SetStatus(documents: seq<Document>, kind: Kind, id: int, status: Status): (r: seq<Document>)
    ensures |r| == |documents|
    ensures forall i :: 0 <= i < |documents| ==>
              r[i] == if documents[i].kind == kind && documents[i].id == id then documents[i].(status := status)
                      else documents[i]
  {
    if documents == [] then []
    else [if documents[0].kind == kind && documents[0].id == id then documents[0].(status := status) else documents[0]]
         + SetStatus(documents[1..], kind, id, status)
  }

  function PaymentSystem(kind: Kind): string {
    if kind.ApBill? then "AP_PAYMENT" else "AR_PAYMENT"
  }

  function DraftSystem(kind: Kind): string {
    if kind.ApBill? then "AP" else "AR"
  }

  /** The status before and after a journal of the given sort is posted. */
  function Expected(kind: Kind, payment: bool): Status {
    if payment then PaymentPending else if kind.ApBill? then ApprovedPendingPost else OpenPendingPost
  }

  function Next(kind: Kind, payment: bool): Status {
    if payment then Paid else if kind.ApBill? then Approved else Open
  }

  predicate Linked(d: Document, j: Journal, payment: bool) {
    var link := if payment then d.payment else d.draft;
    && link.journal == j.id && link.source != "" && link.source == j.source
    && j.system == if payment then PaymentSystem(d.kind) else DraftSystem(d.kind)
  }

  /** applyPostedDocumentTransition. */
  function ApplyPosted(documents: seq<Document>, j: Journal): Transition {
    if !j.status.Posted? then Rejected
    else
      var found := DocumentOf(documents, j.kind, j.document);
      var payment := j.system == PaymentSystem(j.kind);
      if found.None? || !Linked(found.value, j, payment) then Rejected
      else if found.value.status == Next(j.kind, payment) then Already
      else if found.value.status != Expected(j.kind, payment) then Rejected
      else Moved(SetStatus(documents, j.kind, j.document, Next(j.kind, payment)))
  }
}
