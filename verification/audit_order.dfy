/** The verdict of the audit gate does not depend on the order of the journals. */
module AuditOrder {
  import opened Tally
  import opened Audit
  import opened AuditPasses
  import opened AuditVerdict

  // ---------------------------------------------------------------- the failures of pass 1

  datatype Rule = SignRule | BalanceRule | DebitRule | EntityRule | UnitRule | CounterpartyRule | SelfRule

  function RuleOf(f: Failure): Rule {
    match f
    case NegativeAmount(_, _) => SignRule
    case Unbalanced(_) => BalanceRule
    case NoDebit(_) => DebitRule
    case UnknownEntity(_) => EntityRule
    case CostWithoutUnit(_, _) => UnitRule
    case BadCounterparty(_, _) => CounterpartyRule
    case OwnCounterparty(_, _) => SelfRule
  }

  /** The failure that the same journal deserves at another place. */
  function At(f: Failure, n: nat): Failure {
    match f
    case NegativeAmount(_, i) => NegativeAmount(n, i)
    case Unbalanced(_) => Unbalanced(n)
    case NoDebit(_) => NoDebit(n)
    case UnknownEntity(_) => UnknownEntity(n)
    case CostWithoutUnit(_, i) => CostWithoutUnit(n, i)
    case BadCounterparty(_, i) => BadCounterparty(n, i)
    case OwnCounterparty(_, i) => OwnCounterparty(n, i)
  }

  lemma AtInjective(f: Failure, g: Failure, n: nat, k: nat)
    requires At(f, n) == At(g, k) && f.journal == g.journal
    ensures f == g
  {
  }

  lemma AtIs(m: Master, j: Journal, f: Failure, n: nat)
    requires Deserved(m, j, f.journal, f)
    ensures Deserved(m, j, n, At(f, n)) && RuleOf(At(f, n)) == RuleOf(f) && At(f, n).journal == n
  {
  }

  /** A list of exactly the failures that some rules raise. */
  ghost predicate Lists(m: Master, jes: seq<Journal>, rules: set<Rule>, fs: seq<Failure>) {
    NoRepeats(fs) && forall f :: f in fs <==> Raised(m, jes, f) && RuleOf(f) in rules
  }

  function Moved(fs: seq<Failure>, places: seq<nat>): (r: seq<Failure>)
    requires forall f :: f in fs ==> f.journal < |places|
    ensures |r| == |fs| && forall i :: 0 <= i < |fs| ==> r[i] == At(fs[i], places[fs[i].journal])
  {
    if fs == [] then [] else [At(fs[0], places[fs[0].journal])] + Moved(fs[1..], places)
  }

  lemma NoMoreFailures(m: Master, a: seq<Journal>, b: seq<Journal>, rules: set<Rule>, fa: seq<Failure>, fb: seq<Failure>)
    requires multiset(a) == multiset(b)
    requires Lists(m, a, rules, fa) && Lists(m, b, rules, fb)
    ensures |fa| <= |fb|
  {
    hide Deserved, At, RuleOf;
    var places := Matching(a, b);
    var fs := Moved(fa, places);
    forall x, y | 0 <= x < y < |fs|
      ensures fs[x] != fs[y]
    {
      assert fa[x] in fa && fa[y] in fa && fa[x] != fa[y];
      AtIs(m, a[fa[x].journal], fa[x], places[fa[x].journal]);
      AtIs(m, a[fa[y].journal], fa[y], places[fa[y].journal]);
      if fa[x].journal == fa[y].journal && fs[x] == fs[y] {
        AtInjective(fa[x], fa[y], places[fa[x].journal], places[fa[y].journal]);
      }
    }
    forall f | f in fs
      ensures f in fb
    {
      var x :| 0 <= x < |fs| && fs[x] == f;
      assert fa[x] in fa;
      AtIs(m, a[fa[x].journal], fa[x], places[fa[x].journal]);
    }
    ContainedIsShorter(fs, fb);
  }

  /** Each rule of pass 1 raises as many failures in any order of the journals. */
  lemma FailureCountsReordered(
    m: Master, a: seq<Journal>, b: seq<Journal>, rules: set<Rule>, fa: seq<Failure>, fb: seq<Failure>)
    requires multiset(a) == multiset(b)
    requires Lists(m, a, rules, fa) && Lists(m, b, rules, fb)
    ensures |fa| == |fb|
  {
    NoMoreFailures(m, a, b, rules, fa, fb);
    NoMoreFailures(m, b, a, rules, fb, fa);
  }

  // ---------------------------------------------------------------- the classes of the later passes

  lemma {:induction false} PostedKeysReordered<K>(a: seq<Journal>, b: seq<Journal>, key: Journal -> K)
    requires multiset(a) == multiset(b)
    ensures multiset(PostedKeys(a, key)) == multiset(PostedKeys(b, key))
    decreases |a|
  {
    if a == [] {
      assert |multiset(b)| == |b|;
    } else {
      assert a[0] in multiset(b);
      var i :| 0 <= i < |b| && b[i] == a[0];
      TakenOut(b, i);
      HeadTakenOut(a);
      PostedKeysReordered(a[1..], b[..i] + b[i + 1..], key);
      PostedKeysTakenOut(b, i, key);
    }
  }

  lemma PostedKeysTakenOut<K>(b: seq<Journal>, i: nat, key: Journal -> K)
    requires i < |b|
    ensures multiset(PostedKeys(b, key))
         == multiset(if b[i].posted then [key(b[i])] else []) + multiset(PostedKeys(b[..i] + b[i + 1..], key))
  {
    assert b == b[..i] + b[i..];
    PostedKeysConcat(b[..i], b[i..], key);
    PostedKeysConcat(b[..i], b[i + 1..], key);
    assert b[i..][1..] == b[i + 1..];
  }

  /** What the later passes look at is the same for any order of the postings. */
  lemma ClassesReordered(m: Master, p: seq<Posting>, q: seq<Posting>)
    requires multiset(p) == multiset(q)
    ensures forall k :: OverRelieved(m, p, k) == OverRelieved(m, q, k)
    ensures forall k :: RelievedUnfinished(m, p, k) == RelievedUnfinished(m, q, k)
    ensures forall k :: SoldWithoutCost(m, p, k) == SoldWithoutCost(m, q, k)
    ensures forall k :: Unmirrored(m, p, k) == Unmirrored(m, q, k)
  {
    hide ClassSum, HasPair, SoldIn, RelievedIn;
    forall k
      ensures OverRelieved(m, p, k) == OverRelieved(m, q, k) && RelievedUnfinished(m, p, k) == RelievedUnfinished(m, q, k)
    {
      ClassSumReordered(p, q, UnitOf, UnitDebit(m.costOfSales), k);
      ClassSumReordered(p, q, UnitOf, UnitDebit(m.unitCost), k);
      ClassSumReordered(p, q, UnitOf, UnitDebit(m.finished), k);
    }
    forall k
      ensures SoldWithoutCost(m, p, k) == SoldWithoutCost(m, q, k)
    {
      SalesReordered(m, p, q, k);
      SalesReordered(m, q, p, k);
    }
    forall k
      ensures HasPair(m, p, k) == HasPair(m, q, k) && Net(m, p, k) == Net(m, q, k)
    {
      PairsReordered(m, p, q, k);
      PairsReordered(m, q, p, k);
      ClassSumReordered(p, q, PairOf(m), PairWeight(m), k);
    }
  }

  lemma Found<T>(p: seq<T>, q: seq<T>, i: nat) returns (j: nat)
    requires multiset(p) == multiset(q) && i < |p|
    ensures j < |q| && q[j] == p[i]
  {
    assert p[i] in multiset(q);
    j :| 0 <= j < |q| && q[j] == p[i];
  }

  lemma SalesReordered(m: Master, p: seq<Posting>, q: seq<Posting>, k: SaleKey)
    requires multiset(p) == multiset(q)
    ensures SoldIn(m, p, k) ==> SoldIn(m, q, k)
    ensures RelievedIn(m, p, k) ==> RelievedIn(m, q, k)
  {
    if SoldIn(m, p, k) {
      var i :| 0 <= i < |p| && IsSale(m, p[i], k);
      var j := Found(p, q, i);
    }
    if RelievedIn(m, p, k) {
      var i :| 0 <= i < |p| && IsRelief(m, p[i], k);
      var j := Found(p, q, i);
    }
  }

  lemma PairsReordered(m: Master, p: seq<Posting>, q: seq<Posting>, k: PairKey)
    requires multiset(p) == multiset(q)
    ensures HasPair(m, p, k) ==> HasPair(m, q, k)
  {
    if HasPair(m, p, k) {
      var i :| 0 <= i < |p| && Eligible(m, p[i]) && PairOf(m)(p[i]) == k;
      var j := Found(p, q, i);
    }
  }

  function PairIds(ks: seq<PairKey>): (r: seq<set<PairKey>>)
    ensures |r| == |ks| && forall i :: 0 <= i < |ks| ==> r[i] == PairId(ks[i])
  {
    if ks == [] then [] else [PairId(ks[0])] + PairIds(ks[1..])
  }

  /** The mirror pass may name a pair by either side, but names as many pairs. */
  lemma NoMorePairs(m: Master, ps: seq<Posting>, a: seq<PairKey>, b: seq<PairKey>)
    requires Distinct(a) && Distinct(b)
    requires forall k :: k in a ==> Unmirrored(m, ps, k)
    requires forall k :: Unmirrored(m, ps, k) ==> Covered(b, k)
    ensures |a| <= |b|
  {
    hide Unmirrored, PairId;
    var x, y := PairIds(a), PairIds(b);
    forall id | id in x
      ensures id in y
    {
      var i :| 0 <= i < |x| && x[i] == id;
      assert a[i] in a;
      var j :| 0 <= j < |b| && PairId(b[j]) == PairId(a[i]);
      assert y[j] == id;
    }
    ContainedIsShorter(x, y);
  }

  /**
   * Two verdicts on the same journals in different orders: each rule of pass 1 raises as many failures, the later
   * passes report the same numbers, ids, signatures, units and sales, and as many pairs.
   */
  lemma VerdictReordered(m: Master, a: seq<Journal>, b: seq<Journal>, va: Verdict, vb: Verdict)
    requires multiset(a) == multiset(b) && Exact(m, a, va) && Exact(m, b, vb)
    ensures |va.failures| == |vb.failures|
    ensures multiset(va.numbers) == multiset(vb.numbers)
    ensures multiset(va.ids) == multiset(vb.ids)
    ensures multiset(va.signatures) == multiset(vb.signatures)
    ensures multiset(va.over) == multiset(vb.over) && multiset(va.unfinished) == multiset(vb.unfinished)
    ensures multiset(va.unrelieved) == multiset(vb.unrelieved)
    ensures |va.pairs| == |vb.pairs|
  {
    AllRules(m, a, va);
    AllRules(m, b, vb);
    FailureCountsReordered(m, a, b, ALL, va.failures, vb.failures);
    hide Raised, Occurrences, PostedKeys, OverRelieved, RelievedUnfinished, SoldWithoutCost, Distinct, Covered,
      Unmirrored, NoRepeats, Postings;
    DuplicatesReordered(a, b);
    PostingsReordered(a, b);
    ClassesReordered(m, Postings(a), Postings(b));
    SetEqualsMultiset(va.numbers, vb.numbers);
    SetEqualsMultiset(va.ids, vb.ids);
    SetEqualsMultiset(va.signatures, vb.signatures);
    SetEqualsMultiset(va.over, vb.over);
    SetEqualsMultiset(va.unfinished, vb.unfinished);
    SetEqualsMultiset(va.unrelieved, vb.unrelieved);
    NoMorePairs(m, Postings(a), va.pairs, vb.pairs);
    NoMorePairs(m, Postings(a), vb.pairs, va.pairs);
  }

  const ALL: set<Rule> := {SignRule, BalanceRule, DebitRule, EntityRule, UnitRule, CounterpartyRule, SelfRule}

  lemma AllRules(m: Master, jes: seq<Journal>, v: Verdict)
    requires Exact(m, jes, v)
    ensures Lists(m, jes, ALL, v.failures)
  {
    hide Raised, Occurrences, PostedKeys, OverRelieved, RelievedUnfinished, SoldWithoutCost, Distinct, Covered,
      Unmirrored, NoRepeats, Postings;
    assert forall f :: RuleOf(f) in ALL;
  }

  lemma DuplicatesReordered(a: seq<Journal>, b: seq<Journal>)
    requires multiset(a) == multiset(b)
    ensures forall k :: Occurrences(PostedKeys(a, NumberKey), k) == Occurrences(PostedKeys(b, NumberKey), k)
    ensures forall k :: Occurrences(PostedKeys(a, IdKey), k) == Occurrences(PostedKeys(b, IdKey), k)
    ensures forall k :: Occurrences(PostedKeys(a, SignatureOf), k) == Occurrences(PostedKeys(b, SignatureOf), k)
  {
    PostedKeysReordered(a, b, NumberKey);
    PostedKeysReordered(a, b, IdKey);
    PostedKeysReordered(a, b, SignatureOf);
  }
}
