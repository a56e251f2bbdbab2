/** Passes 2 to 4 of the audit gate: duplicates, unit cost, closings and the intercompany mirror. */
module AuditPasses {
  import opened Text
  import opened Tally
  import opened Audit
  import C = Canonical

  // ---------------------------------------------------------------- pass 2: duplicates

  /** A line as the duplicate signature writes it. */
  function LineText(l: Line): string {
    l.account + ":" + NumberText(10000 * l.debit) + ":" + NumberText(10000 * l.credit) + ":" + l.unit + ":" + l.member
  }

  function LineTexts(lines: seq<Line>): seq<string> {
    if lines == [] then [] else [LineText(lines[0])] + LineTexts(lines[1..])
  }

  predicate TextLess(a: string, b: string) {
    C.LexLess(C.Codes(a), C.Codes(b))
  }

  lemma TextOrder(a: string, b: string)
    ensures a == b || TextLess(a, b) || TextLess(b, a)
    ensures TextLess(a, b) ==> !TextLess(b, a)
  {
    C.LexTotal(C.Codes(a), C.Codes(b));
    if C.Codes(a) == C.Codes(b) {
      C.CodesInjective(a, b);
    }
  }

  function InsertText(t: string, s: seq<string>): seq<string> {
    if s == [] || !TextLess(s[0], t) then [t] + s else [s[0]] + InsertText(t, s[1..])
  }

  function SortTexts(s: seq<string>): seq<string> {
    if s == [] then [] else InsertText(s[0], SortTexts(s[1..]))
  }

  predicate SortedTexts(s: seq<string>) {
    s == [] || ((forall x :: x in s[1..] ==> !TextLess(x, s[0])) && SortedTexts(s[1..]))
  }

  lemma {:induction false} InsertTextCorrect(t: string, s: seq<string>)
    requires SortedTexts(s)
    ensures SortedTexts(InsertText(t, s))
    ensures multiset(InsertText(t, s)) == multiset(s) + multiset{t}
  {
    hide TextLess;
    if s != [] {
      assert s == [s[0]] + s[1..];
      if TextLess(s[0], t) {
        InsertTextCorrect(t, s[1..]);
        var rest := InsertText(t, s[1..]);
        TextOrder(s[0], t);
        assert ([s[0]] + rest)[1..] == rest;
        forall x | x in rest
          ensures !TextLess(x, s[0])
        {
          assert x in multiset(rest);
        }
      } else {
        assert ([t] + s)[1..] == s;
        forall x | x in s
          ensures !TextLess(x, t)
        {
          TextOrder(s[0], x);
          TextOrder(x, t);
          TextOrder(s[0], t);
          if TextLess(x, t) {
            ThroughText(s[0], x, t);
          }
        }
      }
    }
  }

  /** Nothing at or after the head of a sorted list precedes what the head does not precede. */
  lemma ThroughText(head: string, x: string, t: string)
    requires !TextLess(x, head) && TextLess(x, t)
    ensures TextLess(head, t)
  {
    TextOrder(head, x);
    if head != x {
      C.LexTransitive(C.Codes(head), C.Codes(x), C.Codes(t));
    }
  }

  lemma {:induction false} SortTextsCorrect(s: seq<string>)
    ensures SortedTexts(SortTexts(s)) && multiset(SortTexts(s)) == multiset(s)
  {
    if s != [] {
      SortTextsCorrect(s[1..]);
      InsertTextCorrect(s[0], SortTexts(s[1..]));
      HeadTakenOut(s);
      assert multiset(s) == multiset(s[1..]) + multiset{s[0]};
    }
  }

  lemma {:induction false} SortedTextsUnique(a: seq<string>, b: seq<string>)
    requires SortedTexts(a) && SortedTexts(b) && multiset(a) == multiset(b)
    ensures a == b
    decreases |a|
  {
    hide TextLess;
    assert |multiset(a)| == |a| && |multiset(b)| == |b|;
    if a != [] {
      assert a[0] in multiset(b) && b[0] in multiset(a);
      TextOrder(a[0], b[0]);
      assert a == [a[0]] + a[1..] && b == [b[0]] + b[1..];
      HeadTakenOut(a);
      HeadTakenOut(b);
      SortedTextsUnique(a[1..], b[1..]);
    }
  }

  datatype Signature = Signature(entity: int, period: string, date: string, lines: seq<string>)

  function SignatureOf(j: Journal): Signature {
    Signature(j.entity, j.period, j.date, SortTexts(LineTexts(j.lines)))
  }

  /** Two journals share a signature exactly when they have one entity, period, date and multiset of lines. */
  lemma SameSignatureIff(a: Journal, b: Journal)
    ensures SignatureOf(a) == SignatureOf(b)
       <==> a.entity == b.entity && a.period == b.period && a.date == b.date
            && multiset(LineTexts(a.lines)) == multiset(LineTexts(b.lines))
  {
    SortTextsCorrect(LineTexts(a.lines));
    SortTextsCorrect(LineTexts(b.lines));
    if multiset(LineTexts(a.lines)) == multiset(LineTexts(b.lines)) {
      SortedTextsUnique(SortTexts(LineTexts(a.lines)), SortTexts(LineTexts(b.lines)));
    }
  }

  /** A code that the signature's delimiter cannot be confused with. */
  predicate Plain(code: string) {
    ':' !in code
  }

  predicate PlainLines(lines: seq<Line>) {
    forall i :: 0 <= i < |lines| ==> Plain(lines[i].account) && Plain(lines[i].unit)
  }

  lemma {:induction false} SplitUnique(a: string, p: string, b: string, q: string)
    requires Plain(a) && Plain(b) && a + ([':'] + p) == b + ([':'] + q)
    ensures a == b && p == q
    decreases |a|
  {
    var u, v := a + ([':'] + p), b + ([':'] + q);
    assert u[0] == (if a == [] then ':' else a[0]) && v[0] == (if b == [] then ':' else b[0]);
    if a == [] || b == [] {
      assert u[1..] == p && v[1..] == q;
    } else {
      assert u[1..] == a[1..] + ([':'] + p) && v[1..] == b[1..] + ([':'] + q);
      SplitUnique(a[1..], p, b[1..], q);
      assert a == [a[0]] + a[1..] && b == [b[0]] + b[1..];
    }
  }

  lemma NumberIsPlain(n: int)
    ensures Plain(NumberText(n))
  {
  }

  lemma SameNumber(m: int, n: int)
    requires NumberText(10000 * m) == NumberText(10000 * n)
    ensures m == n
  {
    hide NumberText;
    assert NumberText(10000 * m) + [] == NumberText(10000 * n) + [];
    NumberTextUnique(10000 * m, [], 10000 * n, []);
  }

  lemma LineTextIs(l: Line)
    ensures LineText(l) == l.account + ([':'] + (NumberText(10000 * l.debit) + ([':'] + (NumberText(10000 * l.credit)
                           + ([':'] + (l.unit + ([':'] + l.member)))))))
  {
    hide NumberText;
  }

  /** The text of a line determines the line, as long as its account and unit codes have no colon. */
  lemma LineTextInjective(a: Line, b: Line)
    requires Plain(a.account) && Plain(a.unit) && Plain(b.account) && Plain(b.unit)
    requires LineText(a) == LineText(b)
    ensures a == b
  {
    hide NumberText, LineText, Plain;
    LineTextIs(a);
    LineTextIs(b);
    NumberIsPlain(10000 * a.debit);
    NumberIsPlain(10000 * a.credit);
    NumberIsPlain(10000 * b.debit);
    NumberIsPlain(10000 * b.credit);
    var ua, ub := a.unit + ([':'] + a.member), b.unit + ([':'] + b.member);
    var ca, cb := NumberText(10000 * a.credit) + ([':'] + ua), NumberText(10000 * b.credit) + ([':'] + ub);
    SplitUnique(a.account, NumberText(10000 * a.debit) + ([':'] + ca), b.account, NumberText(10000 * b.debit) + ([':'] + cb));
    SplitUnique(NumberText(10000 * a.debit), ca, NumberText(10000 * b.debit), cb);
    SplitUnique(NumberText(10000 * a.credit), ua, NumberText(10000 * b.credit), ub);
    SplitUnique(a.unit, a.member, b.unit, b.member);
    SameNumber(a.debit, b.debit);
    SameNumber(a.credit, b.credit);
  }

  lemma HeadCount<T>(s: seq<T>, x: T)
    requires s != []
    ensures multiset(s)[x] == multiset(s[1..])[x] + if s[0] == x then 1 else 0
  {
    assert s == [s[0]] + s[1..];
  }

  lemma LineTextsHead(lines: seq<Line>)
    requires lines != []
    ensures LineTexts(lines) != [] && LineTexts(lines)[0] == LineText(lines[0]) && LineTexts(lines)[1..] == LineTexts(lines[1..])
  {
    hide LineText;
  }

  lemma {:induction false} TextsCount(lines: seq<Line>, l: Line)
    requires PlainLines(lines) && Plain(l.account) && Plain(l.unit)
    ensures multiset(LineTexts(lines))[LineText(l)] == multiset(lines)[l]
  {
    hide LineText, LineTexts, Plain;
    if lines == [] {
      NoLines();
    } else {
      TextsCount(lines[1..], l);
      LineTextsHead(lines);
      HeadCount(lines, l);
      HeadCount(LineTexts(lines), LineText(l));
      if LineText(lines[0]) == LineText(l) {
        LineTextInjective(lines[0], l);
      }
    }
  }

  lemma NoLines()
    ensures LineTexts([]) == []
  {
  }

  lemma {:induction false} TextComesFromLine(lines: seq<Line>, t: string)
    requires t in LineTexts(lines)
    ensures exists i :: 0 <= i < |lines| && LineText(lines[i]) == t
  {
    hide LineText;
    if LineText(lines[0]) != t {
      TextComesFromLine(lines[1..], t);
      var i :| 0 <= i < |lines[1..]| && LineText(lines[1..][i]) == t;
      assert lines[i + 1] == lines[1..][i];
    }
  }

  lemma SameCounts(a: seq<Line>, b: seq<Line>, t: string)
    requires PlainLines(a) && PlainLines(b) && multiset(a) == multiset(b) && t in LineTexts(a)
    ensures multiset(LineTexts(a))[t] == multiset(LineTexts(b))[t]
  {
    hide LineText, Plain;
    TextComesFromLine(a, t);
    var i :| 0 <= i < |a| && LineText(a[i]) == t;
    TextsCount(a, a[i]);
    TextsCount(b, a[i]);
  }

  /** Lines in plain codes have the same texts exactly when they are the same lines, each as often. */
  lemma SameTextsIff(a: seq<Line>, b: seq<Line>)
    requires PlainLines(a) && PlainLines(b)
    ensures multiset(LineTexts(a)) == multiset(LineTexts(b)) <==> multiset(a) == multiset(b)
  {
    hide LineText, LineTexts, PlainLines;
    if multiset(LineTexts(a)) == multiset(LineTexts(b)) {
      forall l
        ensures multiset(a)[l] == multiset(b)[l]
      {
        SameLineCount(a, b, l);
      }
    }
    if multiset(a) == multiset(b) {
      forall t
        ensures multiset(LineTexts(a))[t] == multiset(LineTexts(b))[t]
      {
        if t in LineTexts(a) {
          SameCounts(a, b, t);
        } else if t in LineTexts(b) {
          SameCounts(b, a, t);
        }
      }
    }
  }

  lemma SameLineCount(a: seq<Line>, b: seq<Line>, l: Line)
    requires PlainLines(a) && PlainLines(b) && multiset(LineTexts(a)) == multiset(LineTexts(b))
    ensures multiset(a)[l] == multiset(b)[l]
  {
    hide LineText, LineTexts, Plain;
    if l in a || l in b {
      TextsCount(a, l);
      TextsCount(b, l);
    }
  }

  /** So journals in plain codes share a signature exactly when they agree in head and lines. */
  lemma SameSignatureSameLines(a: Journal, b: Journal)
    requires PlainLines(a.lines) && PlainLines(b.lines)
    ensures SignatureOf(a) == SignatureOf(b)
       <==> a.entity == b.entity && a.period == b.period && a.date == b.date && multiset(a.lines) == multiset(b.lines)
  {
    hide *;
    SameSignatureIff(a, b);
    SameTextsIff(a.lines, b.lines);
  }

  /** With a colon in an account or unit code, different lines can have one text. */
  lemma ColonExample()
    ensures (var a, b := Line("1:0", 0, 0, "U", "M"), Line("1", 0, 0, "0:U", "M");
             a != b && LineText(a) == LineText(b))
  {
    assert "1:0" != "1" by {
      assert |"1:0"| == 3 && |"1"| == 1;
    }
    assert NumberText(10000 * 0) == "0";
    hide NumberText;
    assert LineText(Line("1:0", 0, 0, "U", "M")) == "1:0:0:0:U:M";
    assert LineText(Line("1", 0, 0, "0:U", "M")) == "1:0:0:0:U:M";
  }

  /** One key for each posted journal. */
  function PostedKeys<K>(jes: seq<Journal>, key: Journal -> K): seq<K> {
    if jes == [] then [] else (if jes[0].posted then [key(jes[0])] else []) + PostedKeys(jes[1..], key)
  }

  lemma {:induction false} PostedKeysConcat<K>(a: seq<Journal>, b: seq<Journal>, key: Journal -> K)
    ensures PostedKeys(a + b, key) == PostedKeys(a, key) + PostedKeys(b, key)
  {
    if a == [] {
      assert a + b == b;
    } else {
      assert (a + b)[1..] == a[1..] + b;
      PostedKeysConcat(a[1..], b, key);
      var head := if a[0].posted then [key(a[0])] else [];
      var x, y := PostedKeys(a[1..], key), PostedKeys(b, key);
      assert PostedKeys(a, key) == head + x && PostedKeys(a + b, key) == head + (x + y);
      assert head + (x + y) == (head + x) + y;
    }
  }

  lemma PostedKeysNext<K>(jes: seq<Journal>, i: nat, key: Journal -> K)
    requires i < |jes|
    ensures PostedKeys(jes[..i + 1], key) == PostedKeys(jes[..i], key) + (if jes[i].posted then [key(jes[i])] else [])
  {
    assert jes[..i + 1] == jes[..i] + [jes[i]];
    PostedKeysConcat(jes[..i], [jes[i]], key);
    assert [jes[i]][1..] == [];
  }

  function NumberKey(j: Journal): (int, string) {
    (j.entity, j.number)
  }

  function IdKey(j: Journal): string {
    j.id
  }

  /** The duplicate pass reports each number, id and signature that two posted journals share, once. */
  method CheckDuplicates(jes: seq<Journal>)
    returns (numbers: seq<(int, string)>, ids: seq<string>, signatures: seq<Signature>)
    ensures NoRepeats(numbers) && NoRepeats(ids) && NoRepeats(signatures)
    ensures forall k :: k in numbers <==> Occurrences(PostedKeys(jes, NumberKey), k) >= 2
    ensures forall k :: k in ids <==> Occurrences(PostedKeys(jes, IdKey), k) >= 2
    ensures forall k :: k in signatures <==> Occurrences(PostedKeys(jes, SignatureOf), k) >= 2
  {
    hide SignatureOf;
    var byNumber: seq<(int, string)>, byId: seq<string>, bySignature: seq<Signature> := [], [], [];
    var i := 0;
    while i < |jes|
      invariant 0 <= i <= |jes|
      invariant byNumber == PostedKeys(jes[..i], NumberKey)
      invariant byId == PostedKeys(jes[..i], IdKey)
      invariant bySignature == PostedKeys(jes[..i], SignatureOf)
    {
      PostedKeysNext(jes, i, NumberKey);
      PostedKeysNext(jes, i, IdKey);
      PostedKeysNext(jes, i, SignatureOf);
      if jes[i].posted {
        byNumber := byNumber + [NumberKey(jes[i])];
        byId := byId + [IdKey(jes[i])];
        bySignature := bySignature + [SignatureOf(jes[i])];
      }
      i := i + 1;
    }
    assert jes[..i] == jes;
    numbers := RepeatedKeys(byNumber);
    ids := RepeatedKeys(byId);
    signatures := RepeatedKeys(bySignature);
  }

  // ---------------------------------------------------------------- pass 3: unit cost and closings

  function UnitOf(p: Posting): UnitKey {
    UnitKey(p.entity, p.line.unit)
  }

  /** What a posted line adds to its unit's debits in an account family. */
  function UnitDebit(family: set<string>): Posting -> int {
    (p: Posting) => if p.line.unit != "" && p.line.account in family then p.line.debit else 0
  }

  function UnitTotal(ps: seq<Posting>, family: set<string>, k: UnitKey): int {
    ClassSum(ps, UnitOf, UnitDebit(family), k)
  }

  datatype Totals = Totals(cost: int, toInventory: int, cogs: int)

  function TotalsOf(m: Master, ps: seq<Posting>, k: UnitKey): Totals {
    Totals(UnitTotal(ps, m.unitCost, k), UnitTotal(ps, m.finished, k), UnitTotal(ps, m.costOfSales, k))
  }

  /** A unit's totals after one more line. */
  function Posted(m: Master, t: Totals, l: Line): Totals {
    Totals(t.cost + (if l.account in m.unitCost then l.debit else 0),
           t.toInventory + (if l.account in m.finished then l.debit else 0),
           t.cogs + (if l.account in m.costOfSales then l.debit else 0))
  }

  lemma TotalsNext(m: Master, ps: seq<Posting>, i: nat, k: UnitKey)
    requires i < |ps|
    ensures TotalsOf(m, ps[..i + 1], k)
         == if UnitOf(ps[i]) == k && ps[i].line.unit != "" then Posted(m, TotalsOf(m, ps[..i], k), ps[i].line)
            else TotalsOf(m, ps[..i], k)
  {
    assert ps[..i + 1] == ps[..i] + [ps[i]];
    ClassSumAppend(ps[..i], ps[i], UnitOf, UnitDebit(m.unitCost), k);
    ClassSumAppend(ps[..i], ps[i], UnitOf, UnitDebit(m.finished), k);
    ClassSumAppend(ps[..i], ps[i], UnitOf, UnitDebit(m.costOfSales), k);
  }

  predicate IsSale(m: Master, p: Posting, k: SaleKey) {
    p.line.unit != "" && p.line.account in m.saleRevenue && p.line.credit > 0
    && k == SaleKey(p.entity, p.period, p.line.unit)
  }

  predicate IsRelief(m: Master, p: Posting, k: SaleKey) {
    p.line.unit != "" && p.line.account in m.costOfSales && p.line.debit > 0
    && k == SaleKey(p.entity, p.period, p.line.unit)
  }

  predicate SoldIn(m: Master, ps: seq<Posting>, k: SaleKey) {
    exists i :: 0 <= i < |ps| && IsSale(m, ps[i], k)
  }

  predicate RelievedIn(m: Master, ps: seq<Posting>, k: SaleKey) {
    exists i :: 0 <= i < |ps| && IsRelief(m, ps[i], k)
  }

  lemma SalesNext(m: Master, ps: seq<Posting>, i: nat, k: SaleKey)
    requires i < |ps|
    ensures SoldIn(m, ps[..i + 1], k) <==> SoldIn(m, ps[..i], k) || IsSale(m, ps[i], k)
    ensures RelievedIn(m, ps[..i + 1], k) <==> RelievedIn(m, ps[..i], k) || IsRelief(m, ps[i], k)
  {
    var a, b := ps[..i], ps[..i + 1];
    assert b[i] == ps[i] && forall n :: 0 <= n < i ==> b[n] == a[n];
    if SoldIn(m, a, k) {
      var n :| 0 <= n < |a| && IsSale(m, a[n], k);
      assert IsSale(m, b[n], k);
    }
    if RelievedIn(m, a, k) {
      var n :| 0 <= n < |a| && IsRelief(m, a[n], k);
      assert IsRelief(m, b[n], k);
    }
    assert IsSale(m, ps[i], k) ==> IsSale(m, b[i], k);
    assert IsRelief(m, ps[i], k) ==> IsRelief(m, b[i], k);
  }

  const NOTHING := Totals(0, 0, 0)

  function Held(ledger: map<UnitKey, Totals>, k: UnitKey): Totals {
    if k in ledger then ledger[k] else NOTHING
  }

  /** The unit ledger: every unit that a posted line names, with its three totals. */
  method UnitLedger(m: Master, ps: seq<Posting>) returns (order: seq<UnitKey>, ledger: map<UnitKey, Totals>)
    ensures NoRepeats(order) && forall k :: k in order <==> k in ledger
    ensures forall k :: Held(ledger, k) == TotalsOf(m, ps, k)
  {
    order, ledger := [], map[];
    var i := 0;
    EmptyTotals(m, ps);
    while i < |ps|
      invariant 0 <= i <= |ps|
      invariant NoRepeats(order) && forall k :: k in order <==> k in ledger
      invariant forall k :: Held(ledger, k) == TotalsOf(m, ps[..i], k)
    {
      hide TotalsOf, Posted;
      ghost var was := ledger;
      if ps[i].line.unit != "" {
        var k := UnitOf(ps[i]);
        if k !in ledger {
          order := order + [k];
        }
        ledger := ledger[k := Posted(m, Held(ledger, k), ps[i].line)];
      }
      forall k
        ensures Held(ledger, k) == TotalsOf(m, ps[..i + 1], k)
      {
        TotalsNext(m, ps, i, k);
        assert Held(was, k) == TotalsOf(m, ps[..i], k);
      }
      i := i + 1;
    }
    assert ps[..i] == ps;
  }

  lemma EmptyTotals(m: Master, ps: seq<Posting>)
    ensures forall k :: TotalsOf(m, ps[..0], k) == NOTHING
  {
  }

  /** Units relieved of more than they cost (AUD-INV-001). */
  predicate OverRelieved(m: Master, ps: seq<Posting>, k: UnitKey) {
    UnitTotal(ps, m.costOfSales, k) > UnitTotal(ps, m.unitCost, k)
  }

  /** Units relieved of more than was moved into finished inventory (AUD-INV-002). */
  predicate RelievedUnfinished(m: Master, ps: seq<Posting>, k: UnitKey) {
    UnitTotal(ps, m.costOfSales, k) > UnitTotal(ps, m.finished, k)
  }

  /** The unit pass reports each over-relieved unit once under each of its two rules, and no other. */
  method CheckUnitCost(m: Master, ps: seq<Posting>) returns (over: seq<UnitKey>, unfinished: seq<UnitKey>)
    ensures NoRepeats(over) && forall k :: k in over <==> OverRelieved(m, ps, k)
    ensures NoRepeats(unfinished) && forall k :: k in unfinished <==> RelievedUnfinished(m, ps, k)
  {
    hide UnitTotal;
    var order, ledger := UnitLedger(m, ps);
    over, unfinished := [], [];
    var n := 0;
    while n < |order|
      invariant 0 <= n <= |order|
      invariant NoRepeats(over) && forall k :: k in over <==> k in order[..n] && OverRelieved(m, ps, k)
      invariant NoRepeats(unfinished) && forall k :: k in unfinished <==> k in order[..n] && RelievedUnfinished(m, ps, k)
    {
      assert order[..n + 1] == order[..n] + [order[n]];
      assert order[n] !in order[..n];
      assert Held(ledger, order[n]) == TotalsOf(m, ps, order[n]);
      var r := ledger[order[n]];
      if r.cogs > r.cost {
        over := over + [order[n]];
      }
      if r.cogs > r.toInventory {
        unfinished := unfinished + [order[n]];
      }
      n := n + 1;
    }
    assert order[..n] == order;
    forall k | k !in order
      ensures !OverRelieved(m, ps, k) && !RelievedUnfinished(m, ps, k)
    {
      assert Held(ledger, k) == NOTHING == TotalsOf(m, ps, k);
    }
  }

  /** Closing revenue with no cost of sales in the same entity, period and unit (AUD-CLS-001). */
  predicate SoldWithoutCost(m: Master, ps: seq<Posting>, k: SaleKey) {
    SoldIn(m, ps, k) && !RelievedIn(m, ps, k)
  }

  /** The closing pass reports each sale without cost once, and no other. */
  method CheckClosings(m: Master, ps: seq<Posting>) returns (reported: seq<SaleKey>)
    ensures NoRepeats(reported) && forall k :: k in reported <==> SoldWithoutCost(m, ps, k)
  {
    var sales: seq<SaleKey> := [];
    var relieved: set<SaleKey> := {};
    var i := 0;
    assert ps[..0] == [];
    while i < |ps|
      invariant 0 <= i <= |ps|
      invariant NoRepeats(sales) && forall k :: k in sales <==> SoldIn(m, ps[..i], k)
      invariant forall k :: k in relieved <==> RelievedIn(m, ps[..i], k)
    {
      forall k {
        SalesNext(m, ps, i, k);
      }
      hide SoldIn, RelievedIn;
      var p := ps[i];
      if p.line.unit != "" {
        var k := SaleKey(p.entity, p.period, p.line.unit);
        if p.line.account in m.saleRevenue && p.line.credit > 0 && k !in sales {
          sales := sales + [k];
        }
        if p.line.account in m.costOfSales && p.line.debit > 0 {
          relieved := relieved + {k};
        }
      }
      i := i + 1;
    }
    assert ps[..i] == ps;
    reported := [];
    var n := 0;
    while n < |sales|
      invariant 0 <= n <= |sales|
      invariant NoRepeats(reported) && forall k :: k in reported <==> k in sales[..n] && k !in relieved
    {
      hide SoldIn, RelievedIn;
      assert sales[..n + 1] == sales[..n] + [sales[n]];
      assert sales[n] !in sales[..n];
      if sales[n] !in relieved {
        reported := reported + [sales[n]];
      }
      n := n + 1;
    }
    assert sales[..n] == sales;
  }

  // ---------------------------------------------------------------- pass 4: the intercompany mirror

  /** A line between two different group entities. */
  predicate Eligible(m: Master, p: Posting) {
    p.entity in m.names && p.line.account in m.intercompany
    && p.line.member != "" && IsEntityName(m, p.line.member) && p.line.member != m.names[p.entity]
  }

  function PairOf(m: Master): Posting -> PairKey {
    (p: Posting) => PairKey(if p.entity in m.names then m.names[p.entity] else "", p.line.member, p.period)
  }

  function PairWeight(m: Master): Posting -> int {
    (p: Posting) => if Eligible(m, p) then p.line.debit - p.line.credit else 0
  }

  function Net(m: Master, ps: seq<Posting>, k: PairKey): int {
    ClassSum(ps, PairOf(m), PairWeight(m), k)
  }

  predicate HasPair(m: Master, ps: seq<Posting>, k: PairKey) {
    exists i :: 0 <= i < |ps| && Eligible(m, ps[i]) && PairOf(m)(ps[i]) == k
  }

  function Mirror(k: PairKey): PairKey {
    PairKey(k.other, k.self, k.period)
  }

  /** A pair whose other side is missing or not equal and opposite (AUD-IC-002). */
  predicate Unmirrored(m: Master, ps: seq<Posting>, k: PairKey) {
    HasPair(m, ps, k) && !(HasPair(m, ps, Mirror(k)) && Net(m, ps, Mirror(k)) == -Net(m, ps, k))
  }

  lemma PairNext(m: Master, ps: seq<Posting>, i: nat, k: PairKey)
    requires i < |ps|
    ensures HasPair(m, ps[..i + 1], k) <==> HasPair(m, ps[..i], k) || (Eligible(m, ps[i]) && PairOf(m)(ps[i]) == k)
    ensures Net(m, ps[..i + 1], k)
         == Net(m, ps[..i], k)
            + (if Eligible(m, ps[i]) && PairOf(m)(ps[i]) == k then ps[i].line.debit - ps[i].line.credit else 0)
  {
    var a, b := ps[..i], ps[..i + 1];
    assert b == a + [ps[i]];
    ClassSumAppend(a, ps[i], PairOf(m), PairWeight(m), k);
    if HasPair(m, a, k) {
      var n :| 0 <= n < |a| && Eligible(m, a[n]) && PairOf(m)(a[n]) == k;
      assert b[n] == a[n];
    }
    assert b[i] == ps[i];
  }

  lemma EmptyPairs(m: Master, ps: seq<Posting>)
    ensures forall k :: !HasPair(m, ps[..0], k) && Net(m, ps[..0], k) == 0
  {
  }

  function NetIn(net: map<PairKey, int>, k: PairKey): int {
    if k in net then net[k] else 0
  }

  lemma PairOfIs(m: Master, p: Posting)
    requires Eligible(m, p)
    ensures p.entity in m.names && PairOf(m)(p) == PairKey(m.names[p.entity], p.line.member, p.period)
  {
  }

  /** The map holds exactly the pairs met so far, with their net amounts. */
  ghost predicate PairsHeld(m: Master, ps: seq<Posting>, net: map<PairKey, int>) {
    forall k :: (k in net <==> HasPair(m, ps, k)) && NetIn(net, k) == Net(m, ps, k)
  }

  lemma NoPairs(m: Master, ps: seq<Posting>)
    ensures PairsHeld(m, ps[..0], map[]) && NoRepeats<PairKey>([])
  {
    EmptyPairs(m, ps);
  }

  lemma PairsNext(m: Master, ps: seq<Posting>, i: nat, net: map<PairKey, int>)
    requires i < |ps| && PairsHeld(m, ps[..i], net)
    ensures !Eligible(m, ps[i]) ==> PairsHeld(m, ps[..i + 1], net)
    ensures Eligible(m, ps[i]) ==>
              var k := PairOf(m)(ps[i]);
              PairsHeld(m, ps[..i + 1], net[k := NetIn(net, k) + ps[i].line.debit - ps[i].line.credit])
  {
    hide HasPair, Net, PairOf, Eligible;
    forall k
      ensures HasPair(m, ps[..i + 1], k) <==> HasPair(m, ps[..i], k) || (Eligible(m, ps[i]) && PairOf(m)(ps[i]) == k)
      ensures Net(m, ps[..i + 1], k)
           == NetIn(net, k) + (if Eligible(m, ps[i]) && PairOf(m)(ps[i]) == k then ps[i].line.debit - ps[i].line.credit else 0)
      ensures k in net <==> HasPair(m, ps[..i], k)
    {
      PairNext(m, ps, i, k);
    }
  }

  lemma PairsAre(m: Master, ps: seq<Posting>, net: map<PairKey, int>)
    requires PairsHeld(m, ps, net)
    ensures forall k :: k in net <==> HasPair(m, ps, k)
    ensures forall k :: k in net ==> net[k] == Net(m, ps, k)
  {
    hide HasPair, Net;
    forall k | k in net
      ensures net[k] == Net(m, ps, k)
    {
      assert NetIn(net, k) == Net(m, ps, k);
    }
  }

  lemma NetInIs(net: map<PairKey, int>, k: PairKey)
    ensures NetIn(net, k) == if k in net then net[k] else 0
  {
  }

  method PairPeriods(m: Master, ps: seq<Posting>) returns (order: seq<PairKey>, net: map<PairKey, int>)
    ensures NoRepeats(order) && forall k :: k in order <==> k in net
    ensures forall k :: k in net <==> HasPair(m, ps, k)
    ensures forall k :: k in net ==> net[k] == Net(m, ps, k)
  {
    hide *;
    order, net := [], map[];
    var i := 0;
    NoPairs(m, ps);
    while i < |ps|
      invariant 0 <= i <= |ps|
      invariant NoRepeats(order) && forall k :: k in order <==> k in net
      invariant PairsHeld(m, ps[..i], net)
    {
      PairsNext(m, ps, i, net);
      if Eligible(m, ps[i]) {
        PairOfIs(m, ps[i]);
        var k := PairKey(m.names[ps[i].entity], ps[i].line.member, ps[i].period);
        NetInIs(net, k);
        if k !in net {
          NoRepeatsAppend(order, k);
          order := order + [k];
        }
        net := net[k := (if k in net then net[k] else 0) + ps[i].line.debit - ps[i].line.credit];
      }
      i := i + 1;
    }
    assert ps[..i] == ps;
    PairsAre(m, ps, net);
  }

  /** The unordered pair that a key stands for. */
  function PairId(k: PairKey): set<PairKey> {
    {k, Mirror(k)}
  }

  lemma PairIdIff(a: PairKey, b: PairKey)
    ensures PairId(a) == PairId(b) <==> a == b || a == Mirror(b)
  {
    assert a in PairId(a);
    assert b in PairId(b);
    if a == Mirror(b) {
      assert Mirror(a) == b;
    }
  }

  /** The pair of a key has been reported, from one side or the other. */
  predicate Covered(reported: seq<PairKey>, k: PairKey) {
    exists i :: 0 <= i < |reported| && PairId(reported[i]) == PairId(k)
  }

  lemma CoveredNext(reported: seq<PairKey>, r: PairKey, k: PairKey)
    ensures Covered(reported + [r], k) <==> Covered(reported, k) || PairId(r) == PairId(k)
  {
    hide PairId;
    var next := reported + [r];
    assert next[|reported|] == r;
    if Covered(reported, k) {
      var i :| 0 <= i < |reported| && PairId(reported[i]) == PairId(k);
      assert next[i] == reported[i];
    }
  }

  predicate Distinct(reported: seq<PairKey>) {
    forall i, j :: 0 <= i < j < |reported| ==> PairId(reported[i]) != PairId(reported[j])
  }

  lemma DistinctNext(reported: seq<PairKey>, r: PairKey)
    requires Distinct(reported) && !Covered(reported, r)
    ensures Distinct(reported + [r])
  {
    hide PairId;
  }

  lemma CoveredSame(reported: seq<PairKey>, a: PairKey, b: PairKey)
    requires PairId(a) == PairId(b)
    ensures Covered(reported, a) <==> Covered(reported, b)
  {
  }

  /** Whichever side of a pair comes first, it is unmirrored when the other side is there and is. */
  lemma SameVerdict(m: Master, ps: seq<Posting>, a: PairKey, b: PairKey)
    requires PairId(a) == PairId(b) && HasPair(m, ps, a) && HasPair(m, ps, b)
    ensures Unmirrored(m, ps, a) <==> Unmirrored(m, ps, b)
  {
    hide HasPair, Net, PairId;
    PairIdIff(a, b);
    assert Mirror(Mirror(a)) == a;
  }

  /** What the mirror pass has done with the keys that it has met. */
  ghost predicate MirrorDone(m: Master, ps: seq<Posting>, met: seq<PairKey>, seen: set<set<PairKey>>, reported: seq<PairKey>) {
    && Distinct(reported)
    && (forall k :: k in reported ==> Unmirrored(m, ps, k) && k in met)
    && (forall k :: PairId(k) in seen <==> Covered(met, k))
    && forall k :: k in met && Unmirrored(m, ps, k) ==> Covered(reported, k)
  }

  lemma MirrorDoneIs(m: Master, ps: seq<Posting>, met: seq<PairKey>, seen: set<set<PairKey>>, reported: seq<PairKey>)
    ensures MirrorDone(m, ps, met, seen, reported)
       <==> && Distinct(reported)
            && (forall k :: k in reported ==> Unmirrored(m, ps, k) && k in met)
            && (forall k :: PairId(k) in seen <==> Covered(met, k))
            && forall k :: k in met && Unmirrored(m, ps, k) ==> Covered(reported, k)
  {
    hide Distinct, Unmirrored, PairId, Covered;
  }

  lemma MetBefore(met: seq<PairKey>, k: PairKey) returns (x: PairKey)
    requires Covered(met, k)
    ensures x in met && PairId(x) == PairId(k)
  {
    hide PairId;
    var i :| 0 <= i < |met| && PairId(met[i]) == PairId(k);
    x := met[i];
  }

  lemma CoveredBySome(reported: seq<PairKey>, met: seq<PairKey>, k: PairKey)
    requires (forall x :: x in reported ==> x in met) && Covered(reported, k)
    ensures Covered(met, k)
  {
    hide PairId;
    var x := MetBefore(reported, k);
    var n :| 0 <= n < |met| && met[n] == x;
  }

  lemma SeenPair(m: Master, ps: seq<Posting>, met: seq<PairKey>, seen: set<set<PairKey>>, reported: seq<PairKey>, k: PairKey)
    requires MirrorDone(m, ps, met, seen, reported) && PairId(k) in seen
    requires forall x :: x in met ==> HasPair(m, ps, x)
    requires HasPair(m, ps, k)
    ensures MirrorDone(m, ps, met + [k], seen, reported)
  {
    hide *;
    MirrorDoneIs(m, ps, met, seen, reported);
    MirrorDoneIs(m, ps, met + [k], seen, reported);
    var earlier := MetBefore(met, k);
    SameVerdict(m, ps, earlier, k);
    CoveredSame(reported, earlier, k);
    SeenNext(met, seen, k);
    assert seen + {PairId(k)} == seen;
  }

  lemma SeenNext(met: seq<PairKey>, seen: set<set<PairKey>>, k: PairKey)
    requires forall x :: PairId(x) in seen <==> Covered(met, x)
    ensures forall x :: PairId(x) in seen + {PairId(k)} <==> Covered(met + [k], x)
  {
    hide *;
    forall x
      ensures PairId(x) in seen + {PairId(k)} <==> Covered(met + [k], x)
    {
      CoveredNext(met, k, x);
    }
  }

  lemma NewPair(m: Master, ps: seq<Posting>, met: seq<PairKey>, seen: set<set<PairKey>>, reported: seq<PairKey>, k: PairKey)
    requires MirrorDone(m, ps, met, seen, reported) && PairId(k) !in seen
    ensures (var now := if Unmirrored(m, ps, k) then reported + [k] else reported;
             MirrorDone(m, ps, met + [k], seen + {PairId(k)}, now))
  {
    hide *;
    var now := if Unmirrored(m, ps, k) then reported + [k] else reported;
    MirrorDoneIs(m, ps, met, seen, reported);
    MirrorDoneIs(m, ps, met + [k], seen + {PairId(k)}, now);
    SeenNext(met, seen, k);
    if Covered(reported, k) {
      CoveredBySome(reported, met, k);
      assert false;
    }
    DistinctNext(reported, k);
    forall x | x in met + [k]
      ensures Covered(reported + [k], x) <==> Covered(reported, x) || PairId(k) == PairId(x)
    {
      CoveredNext(reported, k, x);
    }
  }

  /**
   * The mirror pass reports every unmirrored pair once, from whichever side it met first: no two reports are
   * of one pair, and a pair is reported exactly when one of its sides is unmirrored.
   */
  method CheckMirror(m: Master, ps: seq<Posting>) returns (reported: seq<PairKey>)
    ensures forall k :: k in reported ==> Unmirrored(m, ps, k)
    ensures forall k :: Unmirrored(m, ps, k) ==> Covered(reported, k)
    ensures Distinct(reported)
  {
    hide HasPair, Net, PairId, Covered, Distinct, MirrorDone;
    var order, net := PairPeriods(m, ps);
    reported := [];
    var seen: set<set<PairKey>> := {};
    var n := 0;
    NothingMet(m, ps);
    while n < |order|
      invariant 0 <= n <= |order|
      invariant MirrorDone(m, ps, order[..n], seen, reported)
    {
      var key := order[n];
      assert order[..n + 1] == order[..n] + [key];
      assert key in order && key in net;
      if PairId(key) in seen {
        SeenPair(m, ps, order[..n], seen, reported, key);
      } else {
        NewPair(m, ps, order[..n], seen, reported, key);
        seen := seen + {PairId(key)};
        if !(Mirror(key) in net && net[Mirror(key)] == -net[key]) {
          reported := reported + [key];
        }
      }
      n := n + 1;
    }
    assert order[..n] == order;
    MirrorAllDone(m, ps, order, seen, reported);
  }

  lemma NothingMet(m: Master, ps: seq<Posting>)
    ensures MirrorDone(m, ps, [], {}, [])
  {
  }

  lemma MirrorAllDone(m: Master, ps: seq<Posting>, order: seq<PairKey>, seen: set<set<PairKey>>, reported: seq<PairKey>)
    requires MirrorDone(m, ps, order, seen, reported)
    requires forall k :: k in order <==> HasPair(m, ps, k)
    ensures forall k :: k in reported ==> Unmirrored(m, ps, k)
    ensures forall k :: Unmirrored(m, ps, k) ==> Covered(reported, k)
    ensures Distinct(reported)
  {
    hide HasPair, Net, PairId, Covered, Distinct;
  }
}
