/** The account register: opening balance, window, running balance. Amounts are in cents, periods in their order. */
module Register {
  import opened Json

  datatype Line = Line(account: string, debit: int, credit: int)

  /** Dates and numbers stand for their places in the collation order. */
  datatype Journal = Journal(posted: bool, entity: int, period: int, date: int, number: int, lines: seq<Line>)

  datatype Entry = Entry(period: int, date: int, number: int, place: nat, debit: int, credit: int)

  datatype Row = Row(entry: Entry, running: int)

  /** Which register: an entity or all of them, an account and the sign of its normal side. */
  datatype Account = Account(entity: Option<int>, code: string, sign: int)

  predicate OfEntity(j: Journal, a: Account) {
    j.posted && (a.entity.Some? ==> j.entity == a.entity.value)
  }

  predicate Within(period: int, from: Option<int>, through: Option<int>) {
    (from.Some? ==> period >= from.value) && (through.Some? ==> period <= through.value)
  }

  // ---------------------------------------------------------------- the lines of a window

  function AccountLines(j: Journal, code: string, place: nat): seq<Entry>
    requires place <= |j.lines|
    decreases |j.lines| - place
  {
    if place == |j.lines| then []
    else
      (if j.lines[place].account == code
       then [Entry(j.period, j.date, j.number, place, j.lines[place].debit, j.lines[place].credit)] else [])
      + AccountLines(j, code, place + 1)
  }

  /** The entries of the journals in a window, in the order of the journals. */
  function WindowEntries(js: seq<Journal>, a: Account, from: Option<int>, through: Option<int>): seq<Entry> {
    if js == [] then []
    else (if OfEntity(js[0], a) && Within(js[0].period, from, through) then AccountLines(js[0], a.code, 0) else [])
         + WindowEntries(js[1..], a, from, through)
  }

  function Movement(es: seq<Entry>): int {
    if es == [] then 0 else es[0].debit - es[0].credit + Movement(es[1..])
  }

  /** localAccountRegisterOpeningBalance: what was posted before the window. */
  function Opening(js: seq<Journal>, a: Account, from: Option<int>): int {
    if a.code == "" || from.None? then 0
    else a.sign * Movement(WindowEntries(js, a, None, Some(from.value - 1)))
  }

  // ---------------------------------------------------------------- order

  predicate Before(x: Entry, y: Entry) {
    x.date < y.date
    || (x.date == y.date && (x.number < y.number || (x.number == y.number && x.place < y.place)))
  }

  /** A stable insertion. */
  function Insert(x: Entry, es: seq<Entry>): seq<Entry> {
    if es == [] || !Before(es[0], x) then [x] + es else [es[0]] + Insert(x, es[1..])
  }

  function Sorted(es: seq<Entry>): (r: seq<Entry>) {
    if es == [] then [] else Insert(es[0], Sorted(es[1..]))
  }

  lemma {:induction false} InsertMovement(x: Entry, es: seq<Entry>)
    ensures Movement(Insert(x, es)) == x.debit - x.credit + Movement(es)
    ensures |Insert(x, es)| == |es| + 1
    ensures forall e :: e in Insert(x, es) <==> e == x || e in es
  {
    if es == [] || !Before(es[0], x) {
      assert ([x] + es)[1..] == es;
    } else {
      InsertMovement(x, es[1..]);
      assert ([es[0]] + Insert(x, es[1..]))[1..] == Insert(x, es[1..]);
      assert es == [es[0]] + es[1..];
    }
  }

  /** Sorting keeps the entries, how many they are, and what they move. */
  lemma {:induction false} SortedKeeps(es: seq<Entry>)
    ensures Movement(Sorted(es)) == Movement(es) && |Sorted(es)| == |es|
    ensures forall e :: e in Sorted(es) <==> e in es
  {
    if es != [] {
      SortedKeeps(es[1..]);
      InsertMovement(es[0], Sorted(es[1..]));
      assert es == [es[0]] + es[1..];
    }
  }

  /** No entry comes before one that is listed ahead of it. */
  predicate Ascending(es: seq<Entry>) {
    es == [] || ((forall e :: e in es[1..] ==> !Before(e, es[0])) && Ascending(es[1..]))
  }

  lemma {:induction false} InsertAscending(x: Entry, es: seq<Entry>)
    requires Ascending(es)
    ensures Ascending(Insert(x, es))
  {
    if es == [] || !Before(es[0], x) {
      assert ([x] + es)[1..] == es;
      forall e | e in es
        ensures !Before(e, x)
      {
        assert e == es[0] || e in es[1..];
      }
    } else {
      InsertAscending(x, es[1..]);
      InsertMovement(x, es[1..]);
      assert ([es[0]] + Insert(x, es[1..]))[1..] == Insert(x, es[1..]);
    }
  }

  lemma {:induction false} SortedAscends(es: seq<Entry>)
    ensures Ascending(Sorted(es))
  {
    if es != [] {
      SortedAscends(es[1..]);
      InsertAscending(es[0], Sorted(es[1..]));
    }
  }

  // ---------------------------------------------------------------- running balances

  function Running(es: seq<Entry>, sign: int, opening: int): (r: seq<Row>)
    ensures |r| == |es|
  {
    if es == [] then []
    else
      var balance := opening + sign * (es[0].debit - es[0].credit);
      [Row(es[0], balance)] + Running(es[1..], sign, balance)
  }

  /** Every row's balance is the opening balance and the signed movement up to that row. */
  lemma {:induction false} RunningAt(es: seq<Entry>, sign: int, opening: int, i: nat)
    requires i < |es|
    ensures Running(es, sign, opening)[i] == Row(es[i], opening + sign * Movement(es[..i + 1]))
  {
    var balance := opening + sign * (es[0].debit - es[0].credit);
    if i == 0 {
      assert es[..1][1..] == [];
      assert Movement(es[..1]) == es[0].debit - es[0].credit;
    } else {
      RunningAt(es[1..], sign, balance, i - 1);
      assert es[1..][..i] == es[..i + 1][1..];
      Distribute(sign, es[0].debit - es[0].credit, Movement(es[1..][..i]));
    }
  }

  lemma Distribute(s: int, x: int, y: int)
    ensures s * (x + y) == s * x + s * y
  {
  }

  lemma {:induction false} RunningConcat(a: seq<Entry>, b: seq<Entry>, sign: int, opening: int)
    ensures Running(a + b, sign, opening) == Running(a, sign, opening) + Running(b, sign, opening + sign * Movement(a))
  {
    if a == [] {
      assert a + b == b;
    } else {
      var balance := opening + sign * (a[0].debit - a[0].credit);
      assert (a + b)[1..] == a[1..] + b;
      RunningConcat(a[1..], b, sign, balance);
      Distribute(sign, a[0].debit - a[0].credit, Movement(a[1..]));
    }
  }

  function RegisterRows(js: seq<Journal>, a: Account, from: Option<int>, through: Option<int>): seq<Row> {
    Running(Sorted(WindowEntries(js, a, from, through)), a.sign, Opening(js, a, from))
  }

  /** localAccountRegisterEntries: the running balance is carried from row to row. */
  method Entries(js: seq<Journal>, a: Account, from: Option<int>, through: Option<int>) returns (rows: seq<Row>)
    ensures rows == RegisterRows(js, a, from, through)
  {
    hide Opening, Sorted, WindowEntries;
    var entries := Sorted(WindowEntries(js, a, from, through));
    var opening := Opening(js, a, from);
    var running := opening;
    rows := [];
    var i := 0;
    while i < |entries|
      invariant 0 <= i <= |entries|
      invariant rows + Running(entries[i..], a.sign, running) == Running(entries, a.sign, opening)
    {
      running := running + a.sign * (entries[i].debit - entries[i].credit);
      assert entries[i..][1..] == entries[i + 1..];
      rows := rows + [Row(entries[i], running)];
      i := i + 1;
    }
  }

  /** localRegisterEndingBalance. */
  function Ending(rows: seq<Row>): int {
    if rows == [] then 0 else rows[|rows| - 1].running
  }

  // ---------------------------------------------------------------- windows and openings

  lemma {:induction false} AccountLinesIn(j: Journal, code: string, place: nat)
    requires place <= |j.lines|
    ensures forall e :: e in AccountLines(j, code, place) ==> e.period == j.period && e.date == j.date
    decreases |j.lines| - place
  {
    if place < |j.lines| {
      AccountLinesIn(j, code, place + 1);
    }
  }

  lemma {:induction false} MovementConcat(a: seq<Entry>, b: seq<Entry>)
    ensures Movement(a + b) == Movement(a) + Movement(b)
  {
    if a == [] {
      assert a + b == b;
    } else {
      assert (a + b)[1..] == a[1..] + b;
      MovementConcat(a[1..], b);
    }
  }

  /** What a journal contributes to a window. */
  function Share(j: Journal, a: Account, from: Option<int>, through: Option<int>): seq<Entry> {
    if OfEntity(j, a) && Within(j.period, from, through) then AccountLines(j, a.code, 0) else []
  }

  lemma WindowOf(js: seq<Journal>, a: Account, from: Option<int>, through: Option<int>)
    ensures WindowEntries(js, a, from, through)
         == if js == [] then [] else Share(js[0], a, from, through) + WindowEntries(js[1..], a, from, through)
  {
  }

  /** A journal is in one of two adjacent windows exactly when it is in the whole. */
  lemma ShareSplits(j: Journal, a: Account, from: Option<int>, mid: int, through: Option<int>)
    requires (from.Some? ==> from.value <= mid + 1) && (through.Some? ==> mid <= through.value)
    ensures (Share(j, a, from, Some(mid)) == Share(j, a, from, through) && Share(j, a, Some(mid + 1), through) == [])
         || (Share(j, a, from, Some(mid)) == [] && Share(j, a, Some(mid + 1), through) == Share(j, a, from, through))
  {
    hide AccountLines;
  }

  /** A window and the window that follows it together move what both cover. */
  lemma {:induction false} MovementSplits(js: seq<Journal>, a: Account, from: Option<int>, mid: int, through: Option<int>)
    requires (from.Some? ==> from.value <= mid + 1) && (through.Some? ==> mid <= through.value)
    ensures Movement(WindowEntries(js, a, from, through))
         == Movement(WindowEntries(js, a, from, Some(mid))) + Movement(WindowEntries(js, a, Some(mid + 1), through))
  {
    hide WindowEntries, Share;
    WindowOf(js, a, from, through);
    WindowOf(js, a, from, Some(mid));
    WindowOf(js, a, Some(mid + 1), through);
    if js != [] {
      MovementSplits(js[1..], a, from, mid, through);
      ShareSplits(js[0], a, from, mid, through);
      MovementConcat(Share(js[0], a, from, through), WindowEntries(js[1..], a, from, through));
      MovementConcat(Share(js[0], a, from, Some(mid)), WindowEntries(js[1..], a, from, Some(mid)));
      MovementConcat(Share(js[0], a, Some(mid + 1), through), WindowEntries(js[1..], a, Some(mid + 1), through));
    }
  }

  /** The opening balance of the period after a window is the window's own opening balance and its movement. */
  lemma NextOpening(js: seq<Journal>, a: Account, from: Option<int>, through: int)
    requires a.code != "" && (from.Some? ==> from.value <= through + 1)
    ensures Opening(js, a, Some(through + 1))
         == Opening(js, a, from) + a.sign * Movement(WindowEntries(js, a, from, Some(through)))
  {
    hide WindowEntries;
    if from.Some? {
      MovementSplits(js, a, None, from.value - 1, Some(through));
      Distribute(a.sign, Movement(WindowEntries(js, a, None, Some(from.value - 1))),
                 Movement(WindowEntries(js, a, from, Some(through))));
    }
  }

  /**
   * The ending balance that the register shows is the opening balance of the next period, except that an empty
   * window shows zero: then the two agree exactly when the opening balance is zero.
   */
  lemma EndingIsNextOpeningIff(js: seq<Journal>, a: Account, from: Option<int>, through: int)
    requires a.code != "" && (from.Some? ==> from.value <= through + 1)
    ensures Ending(RegisterRows(js, a, from, Some(through))) == Opening(js, a, Some(through + 1))
       <==> RegisterRows(js, a, from, Some(through)) != [] || Opening(js, a, from) == 0
  {
    hide Opening, WindowEntries, Sorted;
    var window := WindowEntries(js, a, from, Some(through));
    var es := Sorted(window);
    SortedKeeps(window);
    NextOpening(js, a, from, through);
    if es != [] {
      RunningAt(es, a.sign, Opening(js, a, from), |es| - 1);
      assert es[..|es| - 1 + 1] == es;
    }
  }

  // ---------------------------------------------------------------- splitting a window

  /** Journals of an earlier period are dated earlier. */
  predicate DatesFollowPeriods(js: seq<Journal>) {
    forall i, k :: 0 <= i < |js| && 0 <= k < |js| && js[i].period < js[k].period ==> js[i].date < js[k].date
  }

  lemma {:induction false} WindowEntriesIn(js: seq<Journal>, a: Account, from: Option<int>, through: Option<int>)
    ensures forall e :: e in WindowEntries(js, a, from, through) ==>
              exists i :: 0 <= i < |js| && Within(js[i].period, from, through) && e.date == js[i].date
  {
    if js != [] {
      WindowEntriesIn(js[1..], a, from, through);
      AccountLinesIn(js[0], a.code, 0);
      forall e | e in WindowEntries(js, a, from, through)
        ensures exists i :: 0 <= i < |js| && Within(js[i].period, from, through) && e.date == js[i].date
      {
        if e in WindowEntries(js[1..], a, from, through) {
          var i :| 0 <= i < |js[1..]| && Within(js[1..][i].period, from, through) && e.date == js[1..][i].date;
          assert js[i + 1] == js[1..][i];
        } else {
          assert e.date == js[0].date;
        }
      }
    }
  }

  predicate AllEarlier(a: seq<Entry>, b: seq<Entry>) {
    forall x, y :: x in a && y in b ==> x.date < y.date
  }

  lemma {:induction false} InsertLeft(x: Entry, a: seq<Entry>, b: seq<Entry>)
    requires forall y :: y in b ==> x.date < y.date
    ensures Insert(x, a + b) == Insert(x, a) + b
  {
    if a == [] {
      assert a + b == b;
      if b != [] {
        assert b[0] in b;
      }
    } else if Before(a[0], x) {
      assert (a + b)[1..] == a[1..] + b;
      InsertLeft(x, a[1..], b);
    }
  }

  lemma {:induction false} InsertRight(x: Entry, a: seq<Entry>, b: seq<Entry>)
    requires forall y :: y in a ==> y.date < x.date
    ensures Insert(x, a + b) == a + Insert(x, b)
  {
    if a == [] {
      assert a + b == b;
    } else {
      assert a[0] in a;
      assert (a + b)[1..] == a[1..] + b;
      InsertRight(x, a[1..], b);
    }
  }

  /** Entries taken from either of two lists, in turn. */
  predicate Shuffle(es: seq<Entry>, a: seq<Entry>, b: seq<Entry>)
    decreases |es|
  {
    if es == [] then a == [] && b == []
    else (a != [] && a[0] == es[0] && Shuffle(es[1..], a[1..], b)) || (b != [] && b[0] == es[0] && Shuffle(es[1..], a, b[1..]))
  }

  lemma {:induction false} ShuffleSorted(es: seq<Entry>, a: seq<Entry>, b: seq<Entry>)
    requires Shuffle(es, a, b) && AllEarlier(a, b)
    ensures Sorted(es) == Sorted(a) + Sorted(b)
    decreases |es|
  {
    if es != [] {
      if a != [] && a[0] == es[0] && Shuffle(es[1..], a[1..], b) {
        assert a == [a[0]] + a[1..];
        ShuffleSorted(es[1..], a[1..], b);
        SortedKeeps(b);
        InsertLeft(es[0], Sorted(a[1..]), Sorted(b));
      } else {
        assert b == [b[0]] + b[1..];
        ShuffleSorted(es[1..], a, b[1..]);
        SortedKeeps(a);
        InsertRight(es[0], Sorted(a), Sorted(b[1..]));
      }
    }
  }

  lemma {:induction false} ShuffleLeft(x: seq<Entry>, es: seq<Entry>, a: seq<Entry>, b: seq<Entry>)
    requires Shuffle(es, a, b)
    ensures Shuffle(x + es, x + a, b)
  {
    if x == [] {
      assert x + es == es && x + a == a;
    } else {
      assert (x + es)[1..] == x[1..] + es && (x + a)[1..] == x[1..] + a;
      ShuffleLeft(x[1..], es, a, b);
    }
  }

  lemma {:induction false} ShuffleRight(x: seq<Entry>, es: seq<Entry>, a: seq<Entry>, b: seq<Entry>)
    requires Shuffle(es, a, b)
    ensures Shuffle(x + es, a, x + b)
  {
    if x == [] {
      assert x + es == es && x + b == b;
    } else {
      assert (x + es)[1..] == x[1..] + es && (x + b)[1..] == x[1..] + b;
      ShuffleRight(x[1..], es, a, b);
    }
  }

  lemma {:induction false} WindowShuffles(js: seq<Journal>, a: Account, from: Option<int>, mid: int, through: Option<int>)
    requires (from.Some? ==> from.value <= mid + 1) && (through.Some? ==> mid <= through.value)
    ensures Shuffle(WindowEntries(js, a, from, through), WindowEntries(js, a, from, Some(mid)),
                    WindowEntries(js, a, Some(mid + 1), through))
  {
    hide WindowEntries, Share, Shuffle;
    WindowOf(js, a, from, through);
    WindowOf(js, a, from, Some(mid));
    WindowOf(js, a, Some(mid + 1), through);
    if js == [] {
      NothingShuffled();
    } else {
      WindowShuffles(js[1..], a, from, mid, through);
      ShareSplits(js[0], a, from, mid, through);
      var es, l, r := WindowEntries(js[1..], a, from, through), WindowEntries(js[1..], a, from, Some(mid)),
        WindowEntries(js[1..], a, Some(mid + 1), through);
      var x := Share(js[0], a, from, through);
      ShuffleLeft(x, es, l, r);
      ShuffleRight(x, es, l, r);
      assert [] + l == l && [] + r == r;
    }
  }

  lemma NothingShuffled()
    ensures Shuffle([], [], [])
  {
  }

  /**
   * When dates follow periods, a window is its two sub-windows one after the other, and the second carries on
   * from the balance at which the first ends.
   */
  lemma WindowConcatenates(js: seq<Journal>, a: Account, from: Option<int>, mid: int, through: Option<int>)
    requires a.code != "" && DatesFollowPeriods(js)
    requires (from.Some? ==> from.value <= mid + 1) && (through.Some? ==> mid <= through.value)
    ensures RegisterRows(js, a, from, through)
         == RegisterRows(js, a, from, Some(mid)) + RegisterRows(js, a, Some(mid + 1), through)
  {
    hide Opening, WindowEntries, Sorted, Shuffle;
    var l, r := WindowEntries(js, a, from, Some(mid)), WindowEntries(js, a, Some(mid + 1), through);
    WindowShuffles(js, a, from, mid, through);
    WindowEntriesIn(js, a, from, Some(mid));
    WindowEntriesIn(js, a, Some(mid + 1), through);
    ShuffleSorted(WindowEntries(js, a, from, through), l, r);
    SortedKeeps(l);
    NextOpening(js, a, from, mid);
    RunningConcat(Sorted(l), Sorted(r), a.sign, Opening(js, a, from));
  }

  /** One posted journal before the window and none in it: the register shows zero, and the next period opens with 100. */
  lemma EmptyWindowExample()
    ensures (var js := [Journal(true, 1, 1, 1, 1, [Line("111000", 100, 0)])];
             var a := Account(None, "111000", 1);
             Ending(RegisterRows(js, a, Some(2), Some(2))) == 0 && Opening(js, a, Some(3)) == 100)
  {
    var js := [Journal(true, 1, 1, 1, 1, [Line("111000", 100, 0)])];
    var a := Account(None, "111000", 1);
    assert js[1..] == [];
    var e := Entry(1, 1, 1, 0, 100, 0);
    assert AccountLines(js[0], "111000", 1) == [];
    assert AccountLines(js[0], "111000", 0) == [e];
    assert WindowEntries(js, a, None, Some(2)) == [e] + WindowEntries(js[1..], a, None, Some(2));
    assert Movement([e]) == 100 + Movement([e][1..]);
  }
}
