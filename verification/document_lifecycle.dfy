/** The control accounts over every run of approve, pay, invoice, receive and post. */
module DocumentLifecycle {
  import opened Json
  import opened Documents

  datatype World = World(documents: seq<Document>, journals: seq<Journal>)

  // ---------------------------------------------------------------- balances

  function Effect(lines: seq<Line>, account: string): int {
    if lines == [] then 0
    else Effect(lines[..|lines| - 1], account)
         + if lines[|lines| - 1].account == account then lines[|lines| - 1].debit - lines[|lines| - 1].credit else 0
  }

  function PostedEffect(j: Journal, account: string): int {
    if j.status.Posted? then Effect(j.lines, account) else 0
  }

  /** Posted debits less posted credits. */
  function Balance(journals: seq<Journal>, account: string): int {
    if journals == [] then 0
    else Balance(journals[..|journals| - 1], account) + PostedEffect(journals[|journals| - 1], account)
  }

  /** What a document still owes: its journal is posted and its payment is not. */
  function Owed(d: Document, kind: Kind): int {
    if d.kind == kind && (d.status.Approved? || d.status.Open? || d.status.PaymentPending?) then d.cents else 0
  }

  function OpenTotal(documents: seq<Document>, kind: Kind): int {
    if documents == [] then 0
    else OpenTotal(documents[..|documents| - 1], kind) + Owed(documents[|documents| - 1], kind)
  }

  lemma {:induction false} BalanceUpdate(js: seq<Journal>, i: nat, j: Journal, account: string)
    requires i < |js|
    ensures Balance(js[i := j], account) == Balance(js, account) - PostedEffect(js[i], account) + PostedEffect(j, account)
  {
    hide PostedEffect;
    var next := js[i := j];
    if i == |js| - 1 {
      assert next[..|js| - 1] == js[..|js| - 1];
    } else {
      assert next[..|js| - 1] == js[..|js| - 1][i := j];
      BalanceUpdate(js[..|js| - 1], i, j, account);
    }
  }

  lemma BalanceAppend(js: seq<Journal>, j: Journal, account: string)
    ensures Balance(js + [j], account) == Balance(js, account) + PostedEffect(j, account)
  {
    assert (js + [j])[..|js|] == js;
  }

  lemma {:induction false} OpenUpdate(ds: seq<Document>, i: nat, d: Document, kind: Kind)
    requires i < |ds|
    ensures OpenTotal(ds[i := d], kind) == OpenTotal(ds, kind) - Owed(ds[i], kind) + Owed(d, kind)
  {
    hide Owed;
    var next := ds[i := d];
    if i == |ds| - 1 {
      assert next[..|ds| - 1] == ds[..|ds| - 1];
    } else {
      assert next[..|ds| - 1] == ds[..|ds| - 1][i := d];
      OpenUpdate(ds[..|ds| - 1], i, d, kind);
    }
  }

  lemma OpenAppend(ds: seq<Document>, d: Document, kind: Kind)
    ensures OpenTotal(ds + [d], kind) == OpenTotal(ds, kind) + Owed(d, kind)
  {
    assert (ds + [d])[..|ds|] == ds;
  }

  // ---------------------------------------------------------------- the invariant

  predicate IsControl(account: string) {
    account == PAYABLE || account == RECEIVABLE
  }

  /** No account that a document chooses itself is a control account. */
  predicate Clean(d: Document) {
    && (forall i :: 0 <= i < |d.lines| ==> !IsControl(d.lines[i].account))
    && !IsControl(CashAccount(d)) && !IsControl(RevenueAccount(d))
  }

  predicate Initial(d: Document) {
    d.status.Draft? || d.status.PendingApproval?
  }

  predicate DistinctDocuments(ds: seq<Document>) {
    forall i, j :: 0 <= i < j < |ds| ==> ds[i].kind != ds[j].kind || ds[i].id != ds[j].id
  }

  /** A kind of document moves through its own statuses only. */
  predicate StatusOfKind(d: Document) {
    (d.kind.ApBill? ==> !d.status.Open? && !d.status.OpenPendingPost?)
    && (d.kind.ArInvoice? ==> !d.status.Approved? && !d.status.ApprovedPendingPost?)
  }

  function ControlOf(kind: Kind): string {
    if kind.ApBill? then PAYABLE else RECEIVABLE
  }

  function OtherControl(kind: Kind): string {
    if kind.ApBill? then RECEIVABLE else PAYABLE
  }

  /** What posting a document's journal does to its control account. */
  function Signed(kind: Kind, payment: bool, cents: int): int {
    if kind.ApBill? == payment then cents else -cents
  }

  predicate IsPayment(j: Journal) {
    j.system == PaymentSystem(j.kind)
  }

  /** A Draft journal that waits for its document: posting it moves the document on and owes or clears its amount. */
  predicate Awaits(j: Journal, d: Document) {
    && j.kind == d.kind && j.document == d.id && Linked(d, j, IsPayment(j)) && d.status == Expected(d.kind, IsPayment(j))
    && Effect(j.lines, ControlOf(d.kind)) == Signed(d.kind, IsPayment(j), d.cents)
    && Effect(j.lines, OtherControl(d.kind)) == 0
  }

  predicate Awaited(j: Journal, ds: seq<Document>) {
    exists n :: 0 <= n < |ds| && Awaits(j, ds[n])
  }

  /** Every Draft journal awaits its document, no two the same one, and the control accounts hold what is open. */
  predicate Inv(w: World) {
    && DistinctDocuments(w.documents)
    && (forall n :: 0 <= n < |w.documents| ==> Clean(w.documents[n]) && StatusOfKind(w.documents[n]))
    && (forall i :: 0 <= i < |w.journals| && w.journals[i].status.DraftJournal? ==> Awaited(w.journals[i], w.documents))
    && (forall i, k :: 0 <= i < k < |w.journals| && w.journals[i].status.DraftJournal?
                       && w.journals[k].status.DraftJournal? ==>
                         w.journals[i].kind != w.journals[k].kind || w.journals[i].document != w.journals[k].document)
    && Balance(w.journals, PAYABLE) == -OpenTotal(w.documents, ApBill)
    && Balance(w.journals, RECEIVABLE) == OpenTotal(w.documents, ArInvoice)
  }

  // ---------------------------------------------------------------- the journals that commands draft

  lemma SystemsDiffer()
    ensures DraftSystem(ApBill) != PaymentSystem(ApBill) && DraftSystem(ArInvoice) != PaymentSystem(ArInvoice)
    ensures PAYABLE != RECEIVABLE && IsControl(PAYABLE) && IsControl(RECEIVABLE)
  {
    assert |DraftSystem(ApBill)| == 2 && |PaymentSystem(ApBill)| == 10;
    assert |DraftSystem(ArInvoice)| == 2 && |PaymentSystem(ArInvoice)| == 10;
    assert PAYABLE[0] == '2' && RECEIVABLE[0] == '1';
  }

  lemma {:induction false} DebitsEffect(lines: seq<BillLine>, account: string)
    requires forall i :: 0 <= i < |lines| ==> lines[i].account != account
    ensures Effect(Debits(lines), account) == 0
  {
    if lines != [] {
      var front := lines[..|lines| - 1];
      DebitsEffect(front, account);
      assert Debits(lines)[..|lines| - 1] == Debits(front);
    }
  }

  lemma EffectAppend(lines: seq<Line>, l: Line, account: string)
    ensures Effect(lines + [l], account) == Effect(lines, account) + if l.account == account then l.debit - l.credit else 0
  {
    assert (lines + [l])[..|lines|] == lines;
  }

  lemma TwoLinesEffect(a: Line, b: Line, account: string)
    ensures Effect([a, b], account)
         == (if a.account == account then a.debit - a.credit else 0)
            + (if b.account == account then b.debit - b.credit else 0)
  {
    EffectAppend([], a, account);
    EffectAppend([a], b, account);
    assert [a] + [b] == [a, b] && [] + [a] == [a];
  }

  /** A command answers with a document it has moved to a pending status, and a Draft journal that awaits it. */
  predicate Drafts(before: Document, r: Reply, payment: bool) {
    r.Accepted? ==>
      && Awaits(r.journal, r.document) && r.journal.status.DraftJournal? && IsPayment(r.journal) == payment
      && r.document.kind == before.kind && r.document.id == before.id && r.document.cents == before.cents
      && Clean(r.document) && StatusOfKind(r.document)
      && before.status != Expected(before.kind, true) && before.status != Expected(before.kind, false)
      && Owed(r.document, before.kind) == Owed(before, before.kind)
  }

  lemma ApproveDrafts(d: Document, call: Call)
    requires d.kind.ApBill? && Clean(d)
    ensures Drafts(d, ApproveBill(d, call), false)
  {
    hide Guard, Total, Debits, Effect;
    SystemsDiffer();
    GuardPasses(d, AccountingDate(d, ""), call, "AP", call.source);
    DebitsEffect(d.lines, PAYABLE);
    DebitsEffect(d.lines, RECEIVABLE);
    EffectAppend(Debits(d.lines), Line(PAYABLE, 0, Total(d.lines)), PAYABLE);
    EffectAppend(Debits(d.lines), Line(PAYABLE, 0, Total(d.lines)), RECEIVABLE);
  }

  lemma GuardPasses(d: Document, date: string, call: Call, system: string, source: string)
    ensures Guard(d, date, call, system, source).None? ==> source != "" && d.cents > 0
  {
  }

  lemma PayDrafts(d: Document, call: Call)
    requires d.kind.ApBill? && Clean(d)
    ensures Drafts(d, PayBill(d, call), true)
  {
    hide Guard, Effect;
    SystemsDiffer();
    var cash := CashAccount(d);
    TwoLinesEffect(Line(PAYABLE, d.cents, 0), Line(cash, 0, d.cents), PAYABLE);
    TwoLinesEffect(Line(PAYABLE, d.cents, 0), Line(cash, 0, d.cents), RECEIVABLE);
    PaymentSource("AP-PAYMENT:", call.paymentId);
  }

  lemma PaymentSource(head: string, id: string)
    requires head != ""
    ensures head + id != ""
  {
  }

  lemma InvoiceDrafts(d: Document, call: Call)
    requires d.kind.ArInvoice? && Clean(d)
    ensures Drafts(d, CreateInvoice(d, call), false)
  {
    hide Guard, Effect;
    SystemsDiffer();
    GuardPasses(d, AccountingDate(d, ""), call, "AR", call.source);
    var revenue := RevenueAccount(d);
    TwoLinesEffect(Line(RECEIVABLE, d.cents, 0), Line(revenue, 0, d.cents), PAYABLE);
    TwoLinesEffect(Line(RECEIVABLE, d.cents, 0), Line(revenue, 0, d.cents), RECEIVABLE);
  }

  lemma ReceiveDrafts(d: Document, call: Call)
    requires d.kind.ArInvoice? && Clean(d)
    ensures Drafts(d, ReceivePayment(d, call), true)
  {
    hide Guard, Effect;
    SystemsDiffer();
    var cash := CashAccount(d);
    TwoLinesEffect(Line(cash, d.cents, 0), Line(RECEIVABLE, 0, d.cents), PAYABLE);
    TwoLinesEffect(Line(cash, d.cents, 0), Line(RECEIVABLE, 0, d.cents), RECEIVABLE);
    PaymentSource("AR-PAYMENT:", call.paymentId);
  }

  // ---------------------------------------------------------------- steps

  datatype Step =
    | DoEnter(document: Document)
    | DoSetBank(n: nat, member: string)
    | DoApprove(n: nat, call: Call)
    | DoPay(n: nat, call: Call)
    | DoInvoice(n: nat, call: Call)
    | DoReceive(n: nat, call: Call)
    | DoPost(i: nat)

  /** An accepted command replaces its document and adds its Draft journal. */
  function Taken(w: World, n: nat, r: Reply): World
    requires n < |w.documents|
  {
    if r.Accepted? then World(w.documents[n := r.document], w.journals + [r.journal]) else w
  }

  /** The posting of a Draft journal, together with the callback; nothing happens when the callback rejects it. */
  function PostStep(w: World, i: nat): World {
    if i < |w.journals| && w.journals[i].status.DraftJournal? then
      var posted := w.journals[i].(status := Posted);
      match ApplyPosted(w.documents, posted)
      case Moved(documents) => World(documents, w.journals[i := posted])
      case Already => w.(journals := w.journals[i := posted])
      case Rejected => w
    else w
  }

  function After(w: World, step: Step): World {
    match step
    case DoEnter(d) =>
      if Initial(d) && Clean(d) && DocumentOf(w.documents, d.kind, d.id).None? then w.(documents := w.documents + [d]) else w
    case DoSetBank(n, member) =>
      if n < |w.documents| then w.(documents := w.documents[n := w.documents[n].(bankMember := member)]) else w
    case DoApprove(n, call) =>
      if n < |w.documents| && w.documents[n].kind.ApBill? then Taken(w, n, ApproveBill(w.documents[n], call)) else w
    case DoPay(n, call) =>
      if n < |w.documents| && w.documents[n].kind.ApBill? then Taken(w, n, PayBill(w.documents[n], call)) else w
    case DoInvoice(n, call) =>
      if n < |w.documents| && w.documents[n].kind.ArInvoice? then Taken(w, n, CreateInvoice(w.documents[n], call)) else w
    case DoReceive(n, call) =>
      if n < |w.documents| && w.documents[n].kind.ArInvoice? then Taken(w, n, ReceivePayment(w.documents[n], call)) else w
    case DoPost(i) => PostStep(w, i)
  }

  function Run(w: World, steps: seq<Step>): World
    decreases |steps|
  {
    if steps == [] then w else Run(After(w, steps[0]), steps[1..])
  }

  lemma {:induction false} FindIs(ds: seq<Document>, kind: Kind, id: int)
    ensures DocumentOf(ds, kind, id).None? <==> forall i :: 0 <= i < |ds| ==> ds[i].kind != kind || ds[i].id != id
    ensures DocumentOf(ds, kind, id).Some? ==>
              exists i :: 0 <= i < |ds| && ds[i] == DocumentOf(ds, kind, id).value && ds[i].kind == kind && ds[i].id == id
  {
    if ds != [] {
      FindIs(ds[1..], kind, id);
      if !(ds[0].kind == kind && ds[0].id == id) && DocumentOf(ds[1..], kind, id).Some? {
        var i :| 0 <= i < |ds[1..]| && ds[1..][i] == DocumentOf(ds[1..], kind, id).value
                 && ds[1..][i].kind == kind && ds[1..][i].id == id;
        assert ds[i + 1] == ds[1..][i];
      }
      forall i | 0 < i < |ds|
        ensures ds[i] == ds[1..][i - 1]
      {
      }
    }
  }

  lemma FoundAt(ds: seq<Document>, n: nat)
    requires DistinctDocuments(ds) && n < |ds|
    ensures DocumentOf(ds, ds[n].kind, ds[n].id) == Some(ds[n])
  {
    FindIs(ds, ds[n].kind, ds[n].id);
  }

  /** A document that changes into one that nothing awaited and nothing awaits leaves the other Drafts waiting. */
  lemma StillAwaited(ds: seq<Document>, n: nat, d: Document, j: Journal)
    requires DistinctDocuments(ds) && n < |ds| && d.kind == ds[n].kind && d.id == ds[n].id
    requires Awaited(j, ds)
    requires j.kind != d.kind || j.document != d.id || Awaits(j, d)
    ensures Awaited(j, ds[n := d])
  {
    hide Awaits;
    AwaitsNames(j, ds);
    var k :| 0 <= k < |ds| && Awaits(j, ds[k]);
    if k == n {
      assert Awaits(j, ds[n := d][n]);
    } else {
      assert Awaits(j, ds[n := d][k]);
    }
  }

  lemma AwaitsNames(j: Journal, ds: seq<Document>)
    ensures forall k :: 0 <= k < |ds| && Awaits(j, ds[k]) ==> j.kind == ds[k].kind && j.document == ds[k].id
  {
  }

  lemma AwaitsStatus(j: Journal, d: Document)
    requires Awaits(j, d)
    ensures j.kind == d.kind && j.document == d.id && d.status == Expected(d.kind, IsPayment(j))
  {
  }

  lemma InvParts(w: World)
    requires Inv(w)
    ensures DistinctDocuments(w.documents)
    ensures forall n :: 0 <= n < |w.documents| ==> Clean(w.documents[n]) && StatusOfKind(w.documents[n])
    ensures forall i :: 0 <= i < |w.journals| && w.journals[i].status.DraftJournal? ==> Awaited(w.journals[i], w.documents)
    ensures forall i, k :: 0 <= i < k < |w.journals| && w.journals[i].status.DraftJournal?
                           && w.journals[k].status.DraftJournal? ==>
                             w.journals[i].kind != w.journals[k].kind || w.journals[i].document != w.journals[k].document
    ensures Balance(w.journals, PAYABLE) == -OpenTotal(w.documents, ApBill)
    ensures Balance(w.journals, RECEIVABLE) == OpenTotal(w.documents, ArInvoice)
  {
    hide DistinctDocuments, Clean, StatusOfKind, Awaited, Balance, OpenTotal;
  }

  lemma DistinctUpdate(ds: seq<Document>, n: nat, d: Document)
    requires DistinctDocuments(ds) && n < |ds| && d.kind == ds[n].kind && d.id == ds[n].id
    ensures DistinctDocuments(ds[n := d])
  {
  }

  lemma DraftOwesNothing(j: Journal, account: string)
    ensures j.status.DraftJournal? ==> PostedEffect(j, account) == 0
  {
  }

  lemma OwedOfKind(d: Document, kind: Kind)
    ensures d.kind != kind ==> Owed(d, kind) == 0
  {
  }

  /** The journal of no Draft names a document whose status is not a pending one. */
  lemma NobodyWaits(w: World, n: nat, i: nat)
    requires Inv(w) && n < |w.documents| && i < |w.journals| && w.journals[i].status.DraftJournal?
    requires w.documents[n].status != Expected(w.documents[n].kind, true)
    requires w.documents[n].status != Expected(w.documents[n].kind, false)
    ensures w.journals[i].kind != w.documents[n].kind || w.journals[i].document != w.documents[n].id
  {
    hide Awaits, Balance, OpenTotal, Clean, StatusOfKind;
    var k :| 0 <= k < |w.documents| && Awaits(w.journals[i], w.documents[k]);
    AwaitsStatus(w.journals[i], w.documents[k]);
  }

  lemma TakenKeepsInv(w: World, n: nat, r: Reply, payment: bool)
    requires Inv(w) && n < |w.documents| && Drafts(w.documents[n], r, payment)
    ensures Inv(Taken(w, n, r))
  {
    hide Inv, DistinctDocuments, Clean, StatusOfKind, Awaited, Awaits, Balance, OpenTotal, Owed, PostedEffect;
    if r.Accepted? {
      InvParts(w);
      var was := w.documents[n];
      var ds, js := w.documents[n := r.document], w.journals + [r.journal];
      DistinctUpdate(w.documents, n, r.document);
      AwaitsStatus(r.journal, r.document);
      forall i | 0 <= i < |js| && js[i].status.DraftJournal?
        ensures Awaited(js[i], ds)
        ensures i < |w.journals| ==> js[i].kind != r.journal.kind || js[i].document != r.journal.document
      {
        if i < |w.journals| {
          NobodyWaits(w, n, i);
          StillAwaited(w.documents, n, r.document, js[i]);
        } else {
          AwaitedAt(r.journal, ds, n);
        }
      }
      BalanceAppend(w.journals, r.journal, PAYABLE);
      BalanceAppend(w.journals, r.journal, RECEIVABLE);
      DraftOwesNothing(r.journal, PAYABLE);
      DraftOwesNothing(r.journal, RECEIVABLE);
      OpenUpdate(w.documents, n, r.document, ApBill);
      OpenUpdate(w.documents, n, r.document, ArInvoice);
      OwedOfKind(was, ApBill);
      OwedOfKind(was, ArInvoice);
      OwedOfKind(r.document, ApBill);
      OwedOfKind(r.document, ArInvoice);
      InvFrom(World(ds, js));
    }
  }

  lemma AwaitedAt(j: Journal, ds: seq<Document>, n: nat)
    requires n < |ds| && Awaits(j, ds[n])
    ensures Awaited(j, ds)
  {
    hide Awaits;
  }

  lemma InvFrom(w: World)
    requires DistinctDocuments(w.documents)
    requires forall n :: 0 <= n < |w.documents| ==> Clean(w.documents[n]) && StatusOfKind(w.documents[n])
    requires forall i :: 0 <= i < |w.journals| && w.journals[i].status.DraftJournal? ==> Awaited(w.journals[i], w.documents)
    requires forall i, k :: 0 <= i < k < |w.journals| && w.journals[i].status.DraftJournal?
                            && w.journals[k].status.DraftJournal? ==>
                              w.journals[i].kind != w.journals[k].kind || w.journals[i].document != w.journals[k].document
    requires Balance(w.journals, PAYABLE) == -OpenTotal(w.documents, ApBill)
    requires Balance(w.journals, RECEIVABLE) == OpenTotal(w.documents, ArInvoice)
    ensures Inv(w)
  {
    hide DistinctDocuments, Clean, StatusOfKind, Awaited, Balance, OpenTotal;
  }

  // ---------------------------------------------------------------- posting

  /** The callback accepts every Draft journal, and moves exactly the document that it waits for. */
  lemma PostingMoves(w: World, i: nat) returns (n: nat)
    requires Inv(w) && i < |w.journals| && w.journals[i].status.DraftJournal?
    ensures n < |w.documents| && Awaits(w.journals[i], w.documents[n])
    ensures (var j, d := w.journals[i], w.documents[n];
             ApplyPosted(w.documents, j.(status := Posted))
             == Moved(w.documents[n := d.(status := Next(d.kind, IsPayment(j)))]))
  {
    hide Inv, Awaits, DistinctDocuments, ApplyPosted;
    InvParts(w);
    n :| 0 <= n < |w.documents| && Awaits(w.journals[i], w.documents[n]);
    CallbackMoves(w.documents, n, w.journals[i]);
  }

  lemma SetStatusAt(ds: seq<Document>, n: nat, status: Status)
    requires DistinctDocuments(ds) && n < |ds|
    ensures SetStatus(ds, ds[n].kind, ds[n].id, status) == ds[n := ds[n].(status := status)]
  {
    hide SetStatus;
    var d := ds[n];
    var a, b := SetStatus(ds, d.kind, d.id, status), ds[n := d.(status := status)];
    forall i | 0 <= i < |ds|
      ensures a[i] == b[i]
    {
      assert i != n ==> ds[i].kind != d.kind || ds[i].id != d.id;
    }
  }

  lemma CallbackMoves(ds: seq<Document>, n: nat, j: Journal)
    requires DistinctDocuments(ds) && n < |ds| && Awaits(j, ds[n])
    ensures ApplyPosted(ds, j.(status := Posted))
         == Moved(ds[n := ds[n].(status := Next(ds[n].kind, IsPayment(j)))])
  {
    hide DistinctDocuments, Effect, DocumentOf;
    FoundAt(ds, n);
    SetStatusAt(ds, n, Next(ds[n].kind, IsPayment(j)));
  }

  /** Replaying the callback of a posted journal changes nothing. */
  lemma ReplayIsIdempotent(w: World, i: nat)
    requires Inv(w) && i < |w.journals| && w.journals[i].status.DraftJournal?
    ensures PostStep(w, i).journals[i].status.Posted?
    ensures ApplyPosted(PostStep(w, i).documents, PostStep(w, i).journals[i]) == Already
  {
    hide Inv, Clean, StatusOfKind, Balance, OpenTotal, Effect;
    InvParts(w);
    var n := PostingMoves(w, i);
    var j, d := w.journals[i], w.documents[n];
    var moved := d.(status := Next(d.kind, IsPayment(j)));
    DistinctUpdate(w.documents, n, moved);
    FoundAt(w.documents[n := moved], n);
  }

  lemma PostedDelta(j: Journal, d: Document)
    requires Awaits(j, d)
    ensures (var posted, moved := j.(status := Posted), d.(status := Next(d.kind, IsPayment(j)));
             && PostedEffect(posted, PAYABLE) == -(Owed(moved, ApBill) - Owed(d, ApBill))
             && PostedEffect(posted, RECEIVABLE) == Owed(moved, ArInvoice) - Owed(d, ArInvoice))
  {
    hide Linked;
    SystemsDiffer();
  }

  lemma PostKeepsInv(w: World, i: nat)
    requires Inv(w)
    ensures Inv(PostStep(w, i))
  {
    hide Inv, DistinctDocuments, Clean, StatusOfKind, Awaited, Awaits, Balance, OpenTotal, Owed, PostedEffect, ApplyPosted;
    if i < |w.journals| && w.journals[i].status.DraftJournal? {
      InvParts(w);
      var n := PostingMoves(w, i);
      var j, d := w.journals[i], w.documents[n];
      var posted, moved := j.(status := Posted), d.(status := Next(d.kind, IsPayment(j)));
      var ds, js := w.documents[n := moved], w.journals[i := posted];
      AwaitsStatus(j, d);
      DistinctUpdate(w.documents, n, moved);
      StaysClean(d, moved.status);
      forall k | 0 <= k < |js| && js[k].status.DraftJournal?
        ensures Awaited(js[k], ds)
      {
        StillAwaited(w.documents, n, moved, js[k]);
      }
      BalanceUpdate(w.journals, i, posted, PAYABLE);
      BalanceUpdate(w.journals, i, posted, RECEIVABLE);
      DraftOwesNothing(j, PAYABLE);
      DraftOwesNothing(j, RECEIVABLE);
      OpenUpdate(w.documents, n, moved, ApBill);
      OpenUpdate(w.documents, n, moved, ArInvoice);
      PostedDelta(j, d);
      InvFrom(World(ds, js));
    }
  }

  lemma StaysClean(d: Document, status: Status)
    requires Clean(d) && StatusOfKind(d)
    requires status == Next(d.kind, true) || status == Next(d.kind, false)
    ensures Clean(d.(status := status)) && StatusOfKind(d.(status := status))
  {
  }

  // ---------------------------------------------------------------- runs

  lemma EnterKeepsInv(w: World, d: Document)
    requires Inv(w)
    ensures Inv(After(w, DoEnter(d)))
  {
    hide Inv, Clean, Awaits, Balance, OpenTotal;
    FindIs(w.documents, d.kind, d.id);
    if Initial(d) && Clean(d) && DocumentOf(w.documents, d.kind, d.id).None? {
      InvParts(w);
      var ds := w.documents + [d];
      forall i | 0 <= i < |w.journals| && w.journals[i].status.DraftJournal?
        ensures Awaited(w.journals[i], ds)
      {
        var n :| 0 <= n < |w.documents| && Awaits(w.journals[i], w.documents[n]);
        assert ds[n] == w.documents[n];
      }
      OpenAppend(w.documents, d, ApBill);
      OpenAppend(w.documents, d, ArInvoice);
      InvFrom(World(ds, w.journals));
    }
  }

  lemma SetBankKeepsInv(w: World, n: nat, member: string)
    requires Inv(w)
    ensures Inv(After(w, DoSetBank(n, member)))
  {
    hide Inv, Awaited, Awaits, Balance, OpenTotal, DistinctDocuments;
    if n < |w.documents| {
      InvParts(w);
      var d := w.documents[n].(bankMember := member);
      var ds := w.documents[n := d];
      DistinctUpdate(w.documents, n, d);
      forall i | 0 <= i < |w.journals| && w.journals[i].status.DraftJournal?
        ensures Awaited(w.journals[i], ds)
      {
        BankIrrelevant(w.journals[i], w.documents, n, member);
      }
      OpenUpdate(w.documents, n, d, ApBill);
      OpenUpdate(w.documents, n, d, ArInvoice);
      InvFrom(World(ds, w.journals));
    }
  }

  lemma BankIrrelevant(j: Journal, ds: seq<Document>, n: nat, member: string)
    requires Awaited(j, ds) && n < |ds|
    ensures Awaited(j, ds[n := ds[n].(bankMember := member)])
  {
    hide Effect;
    var next := ds[n := ds[n].(bankMember := member)];
    var k :| 0 <= k < |ds| && Awaits(j, ds[k]);
    assert Awaits(j, next[k]);
  }

  lemma StepKeepsInv(w: World, step: Step)
    requires Inv(w)
    ensures Inv(After(w, step))
  {
    hide Inv, Drafts, ApproveBill, PayBill, CreateInvoice, ReceivePayment, PostStep, Taken, Clean, StatusOfKind;
    InvParts(w);
    match step
    case DoEnter(d) => EnterKeepsInv(w, d);
    case DoSetBank(n, member) => SetBankKeepsInv(w, n, member);
    case DoApprove(n, call) =>
      if n < |w.documents| && w.documents[n].kind.ApBill? {
        ApproveDrafts(w.documents[n], call);
        TakenKeepsInv(w, n, ApproveBill(w.documents[n], call), false);
      }
    case DoPay(n, call) =>
      if n < |w.documents| && w.documents[n].kind.ApBill? {
        PayDrafts(w.documents[n], call);
        TakenKeepsInv(w, n, PayBill(w.documents[n], call), true);
      }
    case DoInvoice(n, call) =>
      if n < |w.documents| && w.documents[n].kind.ArInvoice? {
        InvoiceDrafts(w.documents[n], call);
        TakenKeepsInv(w, n, CreateInvoice(w.documents[n], call), false);
      }
    case DoReceive(n, call) =>
      if n < |w.documents| && w.documents[n].kind.ArInvoice? {
        ReceiveDrafts(w.documents[n], call);
        TakenKeepsInv(w, n, ReceivePayment(w.documents[n], call), true);
      }
    case DoPost(i) => PostKeepsInv(w, i);
  }

  /**
   * Over every run, accounts payable hold exactly the bills that are approved or being paid, and accounts
   * receivable exactly the invoices that are open or being received.
   */
  lemma {:induction false} ControlAccountsHold(w: World, steps: seq<Step>)
    requires Inv(w)
    ensures Inv(Run(w, steps))
    ensures -Balance(Run(w, steps).journals, PAYABLE) == OpenTotal(Run(w, steps).documents, ApBill)
    ensures Balance(Run(w, steps).journals, RECEIVABLE) == OpenTotal(Run(w, steps).documents, ArInvoice)
    decreases |steps|
  {
    hide Inv, After, Balance, OpenTotal;
    if steps == [] {
      InvParts(w);
    } else {
      StepKeepsInv(w, steps[0]);
      ControlAccountsHold(After(w, steps[0]), steps[1..]);
    }
  }

  // ---------------------------------------------------------------- one journal per source

  /** No journal is reversed, and no two are of one system and source. */
  predicate OnePerSource(js: seq<Journal>) {
    && (forall i :: 0 <= i < |js| ==> !js[i].status.Reversed?)
    && forall i, k :: 0 <= i < k < |js| ==> js[i].system != js[k].system || js[i].source != js[k].source
  }

  /** The caller hands over the journals there are. */
  predicate Informed(w: World, step: Step) {
    match step
    case DoApprove(_, call) => call.existing == w.journals
    case DoPay(_, call) => call.existing == w.journals
    case DoInvoice(_, call) => call.existing == w.journals
    case DoReceive(_, call) => call.existing == w.journals
    case _ => true
  }

  predicate InformedRun(w: World, steps: seq<Step>)
    decreases |steps|
  {
    steps != [] ==> Informed(w, steps[0]) && InformedRun(After(w, steps[0]), steps[1..])
  }

  /** What the duplicate guard leaves of an accepted command. */
  predicate NewSource(r: Reply, existing: seq<Journal>) {
    r.Accepted? ==> r.journal.status.DraftJournal? && !AlreadyDrafted(existing, r.journal.system, r.journal.source)
  }

  lemma GuardsSource(d: Document, date: string, call: Call, system: string, source: string)
    ensures Guard(d, date, call, system, source).None? ==> !AlreadyDrafted(call.existing, system, source)
  {
    hide AlreadyDrafted;
  }

  lemma CommandsNeedNewSource(d: Document, call: Call)
    ensures NewSource(ApproveBill(d, call), call.existing) && NewSource(CreateInvoice(d, call), call.existing)
    ensures NewSource(PayBill(d, call), call.existing) && NewSource(ReceivePayment(d, call), call.existing)
  {
    hide Guard, AlreadyDrafted, AccountingDate, Occurrence, Debits, Total, ValidLine;
    GuardsSource(d, AccountingDate(d, ""), call, "AP", call.source);
    GuardsSource(d, AccountingDate(d, ""), call, "AR", call.source);
    var paid := Occurrence(d, call);
    GuardsSource(paid, AccountingDate(paid, call.paymentDate), call, "AP_PAYMENT", "AP-PAYMENT:" + call.paymentId);
    GuardsSource(paid, AccountingDate(paid, call.paymentDate), call, "AR_PAYMENT", "AR-PAYMENT:" + call.paymentId);
  }

  lemma TakenKeepsSources(w: World, n: nat, r: Reply)
    requires OnePerSource(w.journals) && n < |w.documents| && NewSource(r, w.journals)
    ensures OnePerSource(Taken(w, n, r).journals)
  {
    if r.Accepted? {
      forall i | 0 <= i < |w.journals|
        ensures w.journals[i].system != r.journal.system || w.journals[i].source != r.journal.source
      {
        assert !DuplicateOf(w.journals[i], r.journal.system, r.journal.source);
      }
    }
  }

  lemma PostKeepsSources(w: World, i: nat)
    requires OnePerSource(w.journals)
    ensures OnePerSource(PostStep(w, i).journals)
  {
    hide ApplyPosted;
  }

  lemma StepKeepsSources(w: World, step: Step)
    requires OnePerSource(w.journals) && Informed(w, step)
    ensures OnePerSource(After(w, step).journals)
  {
    hide OnePerSource, NewSource, Taken, PostStep, ApproveBill, PayBill, CreateInvoice, ReceivePayment, Clean, DocumentOf;
    match step
    case DoApprove(n, call) =>
      if n < |w.documents| {
        CommandsNeedNewSource(w.documents[n], call);
        TakenKeepsSources(w, n, ApproveBill(w.documents[n], call));
      }
    case DoPay(n, call) =>
      if n < |w.documents| {
        CommandsNeedNewSource(w.documents[n], call);
        TakenKeepsSources(w, n, PayBill(w.documents[n], call));
      }
    case DoInvoice(n, call) =>
      if n < |w.documents| {
        CommandsNeedNewSource(w.documents[n], call);
        TakenKeepsSources(w, n, CreateInvoice(w.documents[n], call));
      }
    case DoReceive(n, call) =>
      if n < |w.documents| {
        CommandsNeedNewSource(w.documents[n], call);
        TakenKeepsSources(w, n, ReceivePayment(w.documents[n], call));
      }
    case DoPost(i) => PostKeepsSources(w, i);
    case _ =>
  }

  /** Over every run of informed callers no source is journalised twice: one payment id pays one document. */
  lemma {:induction false} SourcesStayUnique(w: World, steps: seq<Step>)
    requires OnePerSource(w.journals) && InformedRun(w, steps)
    ensures OnePerSource(Run(w, steps).journals)
    decreases |steps|
  {
    hide OnePerSource, Informed, After;
    if steps != [] {
      StepKeepsSources(w, steps[0]);
      SourcesStayUnique(After(w, steps[0]), steps[1..]);
    }
  }

  lemma NothingEntered()
    ensures Inv(World([], [])) && OnePerSource([])
  {
  }

  /** So both accounts agree with the documents, whatever has happened since the first document was entered. */
  lemma LedgerAgreesWithDocuments(steps: seq<Step>)
    ensures (var w := Run(World([], []), steps);
             && -Balance(w.journals, PAYABLE) == OpenTotal(w.documents, ApBill)
             && Balance(w.journals, RECEIVABLE) == OpenTotal(w.documents, ArInvoice))
    ensures InformedRun(World([], []), steps) ==> OnePerSource(Run(World([], []), steps).journals)
  {
    hide *;
    NothingEntered();
    ControlAccountsHold(World([], []), steps);
    if InformedRun(World([], []), steps) {
      SourcesStayUnique(World([], []), steps);
    }
  }
}
