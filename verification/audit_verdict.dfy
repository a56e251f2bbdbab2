/** The whole audit gate, and what a clean verdict says of the books. */
module AuditVerdict {
  import opened Tally
  import opened Audit
  import opened AuditPasses

  datatype Verdict = Verdict(
    failures: seq<Failure>, numbers: seq<(int, string)>, ids: seq<string>, signatures: seq<Signature>,
    over: seq<UnitKey>, unfinished: seq<UnitKey>, unrelieved: seq<SaleKey>, pairs: seq<PairKey>)

  /** The verdict names every defect of the journals, once, and nothing else. */
  ghost predicate Exact(m: Master, jes: seq<Journal>, v: Verdict) {
    && NoRepeats(v.failures) && (forall f :: f in v.failures <==> Raised(m, jes, f))
    && NoRepeats(v.numbers) && (forall k :: k in v.numbers <==> Occurrences(PostedKeys(jes, NumberKey), k) >= 2)
    && NoRepeats(v.ids) && (forall k :: k in v.ids <==> Occurrences(PostedKeys(jes, IdKey), k) >= 2)
    && NoRepeats(v.signatures)
    && (forall k :: k in v.signatures <==> Occurrences(PostedKeys(jes, SignatureOf), k) >= 2)
    && NoRepeats(v.over) && (forall k :: k in v.over <==> OverRelieved(m, Postings(jes), k))
    && NoRepeats(v.unfinished) && (forall k :: k in v.unfinished <==> RelievedUnfinished(m, Postings(jes), k))
    && NoRepeats(v.unrelieved) && (forall k :: k in v.unrelieved <==> SoldWithoutCost(m, Postings(jes), k))
    && Distinct(v.pairs) && (forall k :: k in v.pairs ==> Unmirrored(m, Postings(jes), k))
    && (forall k :: Unmirrored(m, Postings(jes), k) ==> Covered(v.pairs, k))
  }

  method RunAudit(m: Master, jes: seq<Journal>) returns (v: Verdict)
    ensures Exact(m, jes, v)
  {
    hide Raised, Occurrences, PostedKeys, OverRelieved, RelievedUnfinished, SoldWithoutCost, Distinct, Covered,
      Unmirrored, NoRepeats, Postings;
    var ps := Postings(jes);
    var failures := CheckJournals(m, jes);
    var numbers, ids, signatures := CheckDuplicates(jes);
    var over, unfinished := CheckUnitCost(m, ps);
    var unrelieved := CheckClosings(m, ps);
    var pairs := CheckMirror(m, ps);
    v := Verdict(failures, numbers, ids, signatures, over, unfinished, unrelieved, pairs);
  }

  // ---------------------------------------------------------------- intercompany elimination

  /** What a posted line adds to the balance of a period. */
  function NetIn(period: string): Posting -> int {
    (p: Posting) => if p.period == period then p.line.debit - p.line.credit else 0
  }

  /** What it adds to the period's intercompany balance. */
  function IntercompanyIn(m: Master, period: string): Posting -> int {
    (p: Posting) => if p.period == period && p.line.account in m.intercompany then p.line.debit - p.line.credit else 0
  }

  function OutsideIn(m: Master, period: string): Posting -> int {
    (p: Posting) => if p.period == period && p.line.account !in m.intercompany then p.line.debit - p.line.credit else 0
  }

  /** No failure of the rules about balance, entity and counterparty. */
  predicate PairRulesSilent(v: Verdict) {
    forall f :: f in v.failures ==> !f.Unbalanced? && !f.UnknownEntity? && !f.BadCounterparty? && !f.OwnCounterparty?
  }

  lemma EveryIntercompanyLineIsEligible(m: Master, jes: seq<Journal>, v: Verdict, p: Posting)
    requires (forall f :: f in v.failures <==> Raised(m, jes, f)) && PairRulesSilent(v)
    requires p in Postings(jes) && p.line.account in m.intercompany
    ensures Eligible(m, p)
  {
    var n, i := PostingOrigin(jes, p);
    assert UnknownEntity(n) !in v.failures;
    assert BadCounterparty(n, i) !in v.failures;
    assert OwnCounterparty(n, i) !in v.failures;
    assert !Raised(m, jes, UnknownEntity(n)) && !Raised(m, jes, BadCounterparty(n, i));
    assert !Raised(m, jes, OwnCounterparty(n, i));
  }

  /** The keys of a period's pairs. */
  function PairKeys(m: Master, ps: seq<Posting>, period: string): (r: seq<PairKey>)
    ensures NoRepeats(r)
    ensures forall k :: k in r <==> k.period == period && HasPair(m, ps, k)
  {
    ClassesOf(ps, PairOf(m), (p: Posting) => Eligible(m, p) && p.period == period)
  }

  function PairWeightIn(m: Master, period: string): Posting -> int {
    (p: Posting) => if p.period == period && Eligible(m, p) then p.line.debit - p.line.credit else 0
  }

  lemma NetOfThePeriod(m: Master, ps: seq<Posting>, period: string, k: PairKey)
    requires k.period == period
    ensures ClassSum(ps, PairOf(m), PairWeightIn(m, period), k) == Net(m, ps, k)
  {
    ClassSumSame(ps, PairOf(m), PairWeightIn(m, period), PairWeight(m), k);
  }

  lemma WeighingPairsListed(m: Master, ps: seq<Posting>, period: string, p: Posting)
    requires p in ps && PairWeightIn(m, period)(p) != 0
    ensures PairOf(m)(p) in PairKeys(m, ps, period)
  {
    var i :| 0 <= i < |ps| && ps[i] == p;
    assert Eligible(m, ps[i]) && PairOf(m)(ps[i]) == PairOf(m)(p);
  }

  /** The lines of a period weigh what its pairs carry. */
  lemma PairsCarryThePeriod(m: Master, ps: seq<Posting>, period: string)
    ensures Sum(PairKeys(m, ps, period), k => Net(m, ps, k)) == Sum(ps, PairWeightIn(m, period))
  {
    hide ClassSum, PairKeys, PairWeightIn, PairOf, Net, HasPair;
    var ks := PairKeys(m, ps, period);
    forall p | p in ps && PairWeightIn(m, period)(p) != 0
      ensures PairOf(m)(p) in ks
    {
      WeighingPairsListed(m, ps, period, p);
    }
    SumByClass(ps, PairOf(m), PairWeightIn(m, period), ks);
    forall k | k in ks
      ensures ClassSum(ps, PairOf(m), PairWeightIn(m, period), k) == Net(m, ps, k)
    {
      NetOfThePeriod(m, ps, period, k);
    }
    SumSame(ks, k => ClassSum(ps, PairOf(m), PairWeightIn(m, period), k), k => Net(m, ps, k));
  }

  /** When every pair mirrors, what the pairs of a period carry adds up to nothing. */
  lemma MirroredPairsCancel(m: Master, ps: seq<Posting>, period: string)
    requires forall k :: !Unmirrored(m, ps, k)
    ensures Sum(ps, PairWeightIn(m, period)) == 0
  {
    hide PairKeys, PairWeightIn, PairOf, Net, HasPair;
    PairsCarryThePeriod(m, ps, period);
    var ks := PairKeys(m, ps, period);
    forall k | k in ks
      ensures Mirror(k) in ks && Mirror(Mirror(k)) == k && Net(m, ps, Mirror(k)) == -Net(m, ps, k)
    {
      assert !Unmirrored(m, ps, k);
    }
    MirroredSumIsZero(ks, k => Net(m, ps, k), Mirror);
  }

  lemma {:induction false} PeriodBalances(jes: seq<Journal>, period: string)
    requires forall n :: 0 <= n < |jes| ==> DebitTotal(jes[n].lines) == CreditTotal(jes[n].lines)
    ensures Sum(Postings(jes), NetIn(period)) == 0
  {
    if jes != [] {
      PeriodBalances(jes[1..], period);
      SumConcat(JournalPostings(jes[0]), Postings(jes[1..]), NetIn(period));
      LinesBalance(jes[0].entity, jes[0].period, jes[0].lines, period);
      assert DebitTotal(jes[0].lines) == CreditTotal(jes[0].lines);
    }
  }

  lemma {:induction false} LinesBalance(entity: int, of: string, lines: seq<Line>, period: string)
    ensures Sum(LinePostings(entity, of, lines), NetIn(period))
         == if of == period then DebitTotal(lines) - CreditTotal(lines) else 0
  {
    if lines != [] {
      LinesBalance(entity, of, lines[1..], period);
      var ps := LinePostings(entity, of, lines);
      assert ps[0] == Posting(entity, of, lines[0]);
      assert ps[1..] == LinePostings(entity, of, lines[1..]);
    }
  }

  lemma IntercompanyWeight(m: Master, period: string, p: Posting)
    requires p.line.account in m.intercompany ==> Eligible(m, p)
    ensures IntercompanyIn(m, period)(p) == PairWeightIn(m, period)(p)
  {
  }

  /** The balance of a period is its intercompany part and the rest. */
  lemma PeriodSplits(m: Master, ps: seq<Posting>, period: string)
    ensures Sum(ps, NetIn(period)) == Sum(ps, IntercompanyIn(m, period)) + Sum(ps, OutsideIn(m, period))
  {
    SumPlus(ps, IntercompanyIn(m, period), OutsideIn(m, period));
    SumSame(ps, NetIn(period), p => IntercompanyIn(m, period)(p) + OutsideIn(m, period)(p));
  }

  /**
   * A verdict silent on balance, entities and pairs means that in every period the posted intercompany lines of
   * the whole group net to zero, and that what is left when they are eliminated still balances.
   */
  lemma IntercompanyEliminates(m: Master, jes: seq<Journal>, v: Verdict, period: string)
    requires Exact(m, jes, v) && PairRulesSilent(v) && v.pairs == []
    ensures Sum(Postings(jes), IntercompanyIn(m, period)) == 0
    ensures Sum(Postings(jes), OutsideIn(m, period)) == 0
  {
    var ps := Postings(jes);
    forall k
      ensures !Unmirrored(m, ps, k)
    {
      assert !Covered(v.pairs, k);
    }
    MirroredPairsCancel(m, ps, period);
    forall p | p in ps
      ensures IntercompanyIn(m, period)(p) == PairWeightIn(m, period)(p)
    {
      if p.line.account in m.intercompany {
        EveryIntercompanyLineIsEligible(m, jes, v, p);
      }
      IntercompanyWeight(m, period, p);
    }
    SumSame(ps, IntercompanyIn(m, period), PairWeightIn(m, period));
    forall n | 0 <= n < |jes|
      ensures DebitTotal(jes[n].lines) == CreditTotal(jes[n].lines)
    {
      assert Unbalanced(n) !in v.failures;
      assert !Raised(m, jes, Unbalanced(n));
    }
    PeriodBalances(jes, period);
    PeriodSplits(m, ps, period);
  }

  // ---------------------------------------------------------------- cost of sales

  /** What a posted line adds to an entity's debits in an account family. */
  function EntityDebit(family: set<string>, entity: int): Posting -> int {
    (p: Posting) => if p.entity == entity && p.line.account in family then p.line.debit else 0
  }

  function EntityUnitDebit(family: set<string>, entity: int): Posting -> int {
    (p: Posting) => if p.entity == entity && p.line.unit != "" && p.line.account in family then p.line.debit else 0
  }

  function UnitsOf(ps: seq<Posting>, entity: int): (r: seq<UnitKey>)
    ensures NoRepeats(r)
    ensures forall k :: k in r ==> k.entity == entity
    ensures forall p :: p in ps && p.entity == entity ==> UnitOf(p) in r
  {
    var r := ClassesOf(ps, UnitOf, (p: Posting) => p.entity == entity);
    assert forall p :: p in ps && p.entity == entity ==> UnitOf(p) in r by {
      forall p | p in ps && p.entity == entity
        ensures UnitOf(p) in r
      {
        var i :| 0 <= i < |ps| && ps[i] == p;
        assert UnitOf(ps[i]) == UnitOf(p);
      }
    }
    r
  }

  lemma UnitTotalIs(ps: seq<Posting>, family: set<string>, entity: int, k: UnitKey)
    requires k.entity == entity
    ensures ClassSum(ps, UnitOf, EntityUnitDebit(family, entity), k) == UnitTotal(ps, family, k)
  {
    hide ClassSum;
    ClassSumSame(ps, UnitOf, EntityUnitDebit(family, entity), UnitDebit(family), k);
  }

  /** An entity's debits on named units are what its units' totals add up to. */
  lemma UnitTotalsAddUp(ps: seq<Posting>, family: set<string>, entity: int)
    ensures Sum(UnitsOf(ps, entity), k => UnitTotal(ps, family, k)) == Sum(ps, EntityUnitDebit(family, entity))
  {
    hide ClassSum, UnitTotal, UnitOf, UnitsOf;
    var ks := UnitsOf(ps, entity);
    forall p | p in ps && EntityUnitDebit(family, entity)(p) != 0
      ensures UnitOf(p) in ks
    {
    }
    SumByClass(ps, UnitOf, EntityUnitDebit(family, entity), ks);
    forall k | k in ks
      ensures ClassSum(ps, UnitOf, EntityUnitDebit(family, entity), k) == UnitTotal(ps, family, k)
    {
      UnitTotalIs(ps, family, entity, k);
    }
    SumSame(ks, k => ClassSum(ps, UnitOf, EntityUnitDebit(family, entity), k), k => UnitTotal(ps, family, k));
  }

  lemma UnitPartOfDebit(m: Master, family: set<string>, entity: int, p: Posting)
    requires !WrongSign(p.line) && !LacksUnit(m, p.line)
    ensures EntityDebit(m.costOfSales, entity)(p) == EntityUnitDebit(m.costOfSales, entity)(p)
    ensures EntityUnitDebit(family, entity)(p) <= EntityDebit(family, entity)(p)
  {
  }

  /** When units never relieve more than a family holds for them, no entity's cost of sales exceeds that family. */
  lemma ReliefBounded(m: Master, ps: seq<Posting>, family: set<string>, entity: int)
    requires forall p :: p in ps ==> !WrongSign(p.line) && !LacksUnit(m, p.line)
    requires forall k :: UnitTotal(ps, m.costOfSales, k) <= UnitTotal(ps, family, k)
    ensures Sum(ps, EntityDebit(m.costOfSales, entity)) <= Sum(ps, EntityDebit(family, entity))
  {
    hide UnitTotal, EntityDebit, EntityUnitDebit, UnitsOf, WrongSign, LacksUnit;
    UnitTotalsAddUp(ps, m.costOfSales, entity);
    UnitTotalsAddUp(ps, family, entity);
    SumAtMost(UnitsOf(ps, entity), k => UnitTotal(ps, m.costOfSales, k), k => UnitTotal(ps, family, k));
    forall p | p in ps
      ensures EntityDebit(m.costOfSales, entity)(p) == EntityUnitDebit(m.costOfSales, entity)(p)
      ensures EntityUnitDebit(family, entity)(p) <= EntityDebit(family, entity)(p)
    {
      UnitPartOfDebit(m, family, entity, p);
    }
    SumSame(ps, EntityDebit(m.costOfSales, entity), EntityUnitDebit(m.costOfSales, entity));
    SumAtMost(ps, EntityUnitDebit(family, entity), EntityDebit(family, entity));
  }

  predicate CostRulesSilent(v: Verdict) {
    v.over == [] && v.unfinished == [] && forall f :: f in v.failures ==> !f.NegativeAmount? && !f.CostWithoutUnit?
  }

  /**
   * A verdict silent on signs and unit cost means that no entity ever relieved more cost of sales than it
   * capitalised to its units, nor more than it moved into finished inventory.
   */
  lemma CostOfSalesIsCovered(m: Master, jes: seq<Journal>, v: Verdict, entity: int)
    requires Exact(m, jes, v) && CostRulesSilent(v)
    ensures Sum(Postings(jes), EntityDebit(m.costOfSales, entity)) <= Sum(Postings(jes), EntityDebit(m.unitCost, entity))
    ensures Sum(Postings(jes), EntityDebit(m.costOfSales, entity)) <= Sum(Postings(jes), EntityDebit(m.finished, entity))
  {
    hide Exact, UnitTotal, EntityDebit, WrongSign, LacksUnit, Postings;
    var ps := Postings(jes);
    forall p | p in ps
      ensures !WrongSign(p.line) && !LacksUnit(m, p.line)
    {
      SilentOnLine(m, jes, v, p);
    }
    forall k
      ensures UnitTotal(ps, m.costOfSales, k) <= UnitTotal(ps, m.unitCost, k)
      ensures UnitTotal(ps, m.costOfSales, k) <= UnitTotal(ps, m.finished, k)
    {
      SilentOnUnit(m, jes, v, k);
    }
    ReliefBounded(m, ps, m.unitCost, entity);
    ReliefBounded(m, ps, m.finished, entity);
  }

  lemma SilentOnLine(m: Master, jes: seq<Journal>, v: Verdict, p: Posting)
    requires Exact(m, jes, v) && CostRulesSilent(v) && p in Postings(jes)
    ensures !WrongSign(p.line) && !LacksUnit(m, p.line)
  {
    var n, i := PostingOrigin(jes, p);
    hide Raised, OverRelieved, RelievedUnfinished, SoldWithoutCost, Unmirrored, Covered, Distinct, Occurrences, NoRepeats,
      Postings, PostedKeys, WrongSign, LacksUnit;
    assert NegativeAmount(n, i) !in v.failures && CostWithoutUnit(n, i) !in v.failures;
    UnraisedLine(m, jes, n, i);
  }

  lemma UnraisedLine(m: Master, jes: seq<Journal>, n: nat, i: nat)
    requires n < |jes| && i < |jes[n].lines|
    requires !Raised(m, jes, NegativeAmount(n, i)) && !Raised(m, jes, CostWithoutUnit(n, i))
    ensures !WrongSign(jes[n].lines[i]) && !LacksUnit(m, jes[n].lines[i])
  {
  }

  lemma SilentOnUnit(m: Master, jes: seq<Journal>, v: Verdict, k: UnitKey)
    requires Exact(m, jes, v) && CostRulesSilent(v)
    ensures UnitTotal(Postings(jes), m.costOfSales, k) <= UnitTotal(Postings(jes), m.unitCost, k)
    ensures UnitTotal(Postings(jes), m.costOfSales, k) <= UnitTotal(Postings(jes), m.finished, k)
  {
    hide UnitTotal, Postings;
    assert k !in v.over && k !in v.unfinished;
    assert !OverRelieved(m, Postings(jes), k) && !RelievedUnfinished(m, Postings(jes), k);
  }
}
