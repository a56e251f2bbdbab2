/** The ledger audit gate over exact ten-thousandth amounts: the passes, and what each of them reports. */
module Audit {
  import opened Tally

  /** A journal line; a missing unit or member is the empty text. */
  datatype Line = Line(account: string, debit: int, credit: int, unit: string, member: string)

  datatype Journal = Journal(
    entity: int, number: string, id: string, period: string, date: string, posted: bool, lines: seq<Line>)

  /** Account families and the entity master. */
  datatype Master = Master(
    names: map<int, string>, intercompany: set<string>, unitCost: set<string>, finished: set<string>,
    costOfSales: set<string>, saleRevenue: set<string>)

  datatype UnitKey = UnitKey(entity: int, unit: string)
  datatype SaleKey = SaleKey(entity: int, period: string, unit: string)
  datatype PairKey = PairKey(self: string, other: string, period: string)

  // ---------------------------------------------------------------- pass 1: one journal at a time

  /** What pass 1 can say of the n-th journal, or of one of its lines. */
  datatype Failure =
    | NegativeAmount(journal: nat, line: nat)    // AUD-SIGN-001
    | Unbalanced(journal: nat)                   // AUD-BAL-001
    | NoDebit(journal: nat)                      // AUD-BAL-003
    | UnknownEntity(journal: nat)                // AUD-ENT-001
    | CostWithoutUnit(journal: nat, line: nat)   // AUD-INV-003
    | BadCounterparty(journal: nat, line: nat)   // AUD-IC-001
    | OwnCounterparty(journal: nat, line: nat)   // AUD-IC-003

  function DebitTotal(lines: seq<Line>): int {
    Sum(lines, (l: Line) => l.debit)
  }

  function CreditTotal(lines: seq<Line>): int {
    Sum(lines, (l: Line) => l.credit)
  }

  predicate IsEntityName(m: Master, name: string) {
    name in m.names.Values
  }

  predicate WrongSign(l: Line) {
    l.debit < 0 || l.credit < 0
  }

  predicate LacksUnit(m: Master, l: Line) {
    l.account in m.costOfSales && l.debit > 0 && l.unit == ""
  }

  predicate LacksCounterparty(m: Master, l: Line) {
    l.account in m.intercompany && (l.member == "" || !IsEntityName(m, l.member))
  }

  predicate NamesItself(m: Master, entity: int, l: Line) {
    l.account in m.intercompany && l.member != "" && IsEntityName(m, l.member)
    && entity in m.names && l.member == m.names[entity]
  }

  /** When the n-th journal deserves a failure. */
  predicate Deserved(m: Master, j: Journal, n: nat, f: Failure) {
    f.journal == n
    && match f
       case NegativeAmount(_, i) => i < |j.lines| && WrongSign(j.lines[i])
       case Unbalanced(_) => DebitTotal(j.lines) != CreditTotal(j.lines)
       case NoDebit(_) => j.lines == [] || DebitTotal(j.lines) <= 0
       case UnknownEntity(_) => j.entity !in m.names
       case CostWithoutUnit(_, i) => i < |j.lines| && LacksUnit(m, j.lines[i])
       case BadCounterparty(_, i) => i < |j.lines| && LacksCounterparty(m, j.lines[i])
       case OwnCounterparty(_, i) => i < |j.lines| && NamesItself(m, j.entity, j.lines[i])
  }

  lemma NoRepeatsConcat<T>(a: seq<T>, b: seq<T>)
    requires NoRepeats(a) && NoRepeats(b) && forall x :: x in a ==> x !in b
    ensures NoRepeats(a + b)
  {
    forall i, j | 0 <= i < j < |a + b|
      ensures (a + b)[i] != (a + b)[j]
    {
      if i < |a| <= j {
        assert a[i] in a && b[j - |a|] in b;
      }
    }
  }

  lemma TotalAppend(lines: seq<Line>, i: nat)
    requires i < |lines|
    ensures DebitTotal(lines[..i + 1]) == DebitTotal(lines[..i]) + lines[i].debit
    ensures CreditTotal(lines[..i + 1]) == CreditTotal(lines[..i]) + lines[i].credit
  {
    assert lines[..i + 1] == lines[..i] + [lines[i]];
    SumConcat(lines[..i], [lines[i]], (l: Line) => l.debit);
    SumConcat(lines[..i], [lines[i]], (l: Line) => l.credit);
  }

  /** Signs and totals of one journal. */
  method CheckMoney(m: Master, j: Journal, n: nat) returns (fs: seq<Failure>)
    ensures NoRepeats(fs)
    ensures forall f :: f in fs <==> Deserved(m, j, n, f) && (f.NegativeAmount? || f.Unbalanced? || f.NoDebit?)
  {
    fs := [];
    var debit, credit := 0, 0;
    var i := 0;
    while i < |j.lines|
      invariant 0 <= i <= |j.lines|
      invariant debit == DebitTotal(j.lines[..i]) && credit == CreditTotal(j.lines[..i])
      invariant NoRepeats(fs)
      invariant forall f :: f in fs <==> f.NegativeAmount? && f.line < i && Deserved(m, j, n, f)
    {
      TotalAppend(j.lines, i);
      debit, credit := debit + j.lines[i].debit, credit + j.lines[i].credit;
      if WrongSign(j.lines[i]) {
        fs := fs + [NegativeAmount(n, i)];
      }
      i := i + 1;
    }
    assert j.lines[..i] == j.lines;
    assert Unbalanced(n) !in fs;
    if debit != credit {
      fs := fs + [Unbalanced(n)];
    }
    assert NoDebit(n) !in fs;
    if debit <= 0 || j.lines == [] {
      fs := fs + [NoDebit(n)];
    }
  }

  /** Cost-of-sales lines that name no unit. */
  method CheckUnitsNamed(m: Master, j: Journal, n: nat) returns (fs: seq<Failure>)
    ensures NoRepeats(fs)
    ensures forall f :: f in fs <==> Deserved(m, j, n, f) && f.CostWithoutUnit?
  {
    fs := [];
    var i := 0;
    while i < |j.lines|
      invariant 0 <= i <= |j.lines|
      invariant NoRepeats(fs)
      invariant forall f :: f in fs <==> f.CostWithoutUnit? && f.line < i && Deserved(m, j, n, f)
    {
      if LacksUnit(m, j.lines[i]) {
        fs := fs + [CostWithoutUnit(n, i)];
      }
      i := i + 1;
    }
  }

  /** Intercompany lines with no counterparty in the group, or with themselves. */
  method CheckCounterparties(m: Master, j: Journal, n: nat) returns (fs: seq<Failure>)
    ensures NoRepeats(fs)
    ensures forall f :: f in fs <==> Deserved(m, j, n, f) && (f.BadCounterparty? || f.OwnCounterparty?)
  {
    fs := [];
    var i := 0;
    while i < |j.lines|
      invariant 0 <= i <= |j.lines|
      invariant NoRepeats(fs)
      invariant forall f :: f in fs <==> (f.BadCounterparty? || f.OwnCounterparty?) && f.line < i && Deserved(m, j, n, f)
    {
      var l := j.lines[i];
      if l.account in m.intercompany {
        if l.member == "" || !IsEntityName(m, l.member) {
          fs := fs + [BadCounterparty(n, i)];
        } else if j.entity in m.names && l.member == m.names[j.entity] {
          fs := fs + [OwnCounterparty(n, i)];
        }
      }
      i := i + 1;
    }
  }

  method CheckJournal(m: Master, j: Journal, n: nat) returns (fs: seq<Failure>)
    ensures NoRepeats(fs)
    ensures forall f :: f in fs <==> Deserved(m, j, n, f)
  {
    hide Deserved;
    var money := CheckMoney(m, j, n);
    var entity := if j.entity !in m.names then [UnknownEntity(n)] else [];
    var units := CheckUnitsNamed(m, j, n);
    var pairs := CheckCounterparties(m, j, n);
    UnknownEntityDeserved(m, j, n);
    NoRepeatsConcat(money, entity);
    NoRepeatsConcat(money + entity, units);
    NoRepeatsConcat(money + entity + units, pairs);
    fs := money + entity + units + pairs;
  }

  lemma UnknownEntityDeserved(m: Master, j: Journal, n: nat)
    ensures forall f: Failure :: f.UnknownEntity? ==>
      (Deserved(m, j, n, f) <==> f == UnknownEntity(n) && j.entity !in m.names)
  {
  }

  /** A failure of pass 1 is deserved by the journal that it names. */
  predicate Raised(m: Master, jes: seq<Journal>, f: Failure) {
    f.journal < |jes| && Deserved(m, jes[f.journal], f.journal, f)
  }

  /** Pass 1 reports every deserved failure, once, and nothing else. */
  method CheckJournals(m: Master, jes: seq<Journal>) returns (failures: seq<Failure>)
    ensures NoRepeats(failures)
    ensures forall f :: f in failures <==> Raised(m, jes, f)
  {
    failures := [];
    var n := 0;
    while n < |jes|
      invariant 0 <= n <= |jes|
      invariant NoRepeats(failures)
      invariant forall f :: f in failures <==> f.journal < n && Raised(m, jes, f)
    {
      var fs := CheckJournal(m, jes[n], n);
      hide Deserved;
      DeservedNames(m, jes[n], n);
      NoRepeatsConcat(failures, fs);
      failures := failures + fs;
      n := n + 1;
    }
  }

  lemma DeservedNames(m: Master, j: Journal, n: nat)
    ensures forall f :: Deserved(m, j, n, f) ==> f.journal == n
  {
  }

  // ---------------------------------------------------------------- posted lines

  /** A posted line with what its journal says of it. */
  datatype Posting = Posting(entity: int, period: string, line: Line)

  function LinePostings(entity: int, period: string, lines: seq<Line>): (r: seq<Posting>)
    ensures |r| == |lines| && forall i :: 0 <= i < |lines| ==> r[i] == Posting(entity, period, lines[i])
  {
    if lines == [] then [] else [Posting(entity, period, lines[0])] + LinePostings(entity, period, lines[1..])
  }

  function JournalPostings(j: Journal): seq<Posting> {
    if j.posted then LinePostings(j.entity, j.period, j.lines) else []
  }

  function Postings(jes: seq<Journal>): seq<Posting> {
    if jes == [] then [] else JournalPostings(jes[0]) + Postings(jes[1..])
  }

  /** A posting comes from a line of a posted journal. */
  lemma {:induction false} PostingOrigin(jes: seq<Journal>, p: Posting) returns (n: nat, i: nat)
    requires p in Postings(jes)
    ensures n < |jes| && jes[n].posted && i < |jes[n].lines|
    ensures p == Posting(jes[n].entity, jes[n].period, jes[n].lines[i])
  {
    if p in JournalPostings(jes[0]) {
      n := 0;
      i :| 0 <= i < |JournalPostings(jes[0])| && JournalPostings(jes[0])[i] == p;
    } else {
      n, i := PostingOrigin(jes[1..], p);
      n := n + 1;
    }
  }

  lemma {:induction false} PostingsConcat(a: seq<Journal>, b: seq<Journal>)
    ensures Postings(a + b) == Postings(a) + Postings(b)
  {
    if a == [] {
      assert a + b == b;
    } else {
      assert (a + b)[1..] == a[1..] + b;
      PostingsConcat(a[1..], b);
    }
  }

  /** Reordering the journals reorders the postings. */
  lemma {:induction false} PostingsReordered(a: seq<Journal>, b: seq<Journal>)
    requires multiset(a) == multiset(b)
    ensures multiset(Postings(a)) == multiset(Postings(b))
    decreases |a|
  {
    if a == [] {
      assert |multiset(b)| == |b|;
    } else {
      assert a[0] in multiset(b);
      var i :| 0 <= i < |b| && b[i] == a[0];
      TakenOut(b, i);
      HeadTakenOut(a);
      PostingsReordered(a[1..], b[..i] + b[i + 1..]);
      PostingsTakenOut(b, i);
    }
  }

  lemma PostingsTakenOut(b: seq<Journal>, i: nat)
    requires i < |b|
    ensures multiset(Postings(b)) == multiset(JournalPostings(b[i])) + multiset(Postings(b[..i] + b[i + 1..]))
  {
    assert b == b[..i] + b[i..];
    PostingsConcat(b[..i], b[i..]);
    PostingsConcat(b[..i], b[i + 1..]);
    assert b[i..][1..] == b[i + 1..];
  }
}
