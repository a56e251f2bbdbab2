/** The canonical payload text: members sorted at every depth, then JSON.stringify. */
module Canonical {
  import opened Text
  import opened Json

  // ---------------------------------------------------------------- the order of member names

  /** Array-index names, which JavaScript enumerates first and by value. */
  predicate IndexKey(key: string) {
    key != "" && AllDigits(key) && (key == "0" || key[0] != '0') && DigitsValue(key) < 0xFFFF_FFFF
  }

  /** The UTF-16 code units of a character: one, or two surrogates. */
  function Units(c: char): (u: seq<int>)
    ensures u != []
  {
    var n := c as int;
    if n < 0x1_0000 then [n] else [0xD800 + (n - 0x1_0000) / 0x400, 0xDC00 + (n - 0x1_0000) % 0x400]
  }

  function Codes(key: string): seq<int> {
    if key == "" then [] else Units(key[0]) + Codes(key[1..])
  }

  /**
   * Sorted names compare by code unit; index names precede the others and, being canonical decimals, compare by
   * length first.
   */
  function Rank(key: string): seq<int> {
    if IndexKey(key) then [0, |key|] + Codes(key) else [1] + Codes(key)
  }

  predicate LexLess(a: seq<int>, b: seq<int>) {
    b != [] && (a == [] || a[0] < b[0] || (a[0] == b[0] && LexLess(a[1..], b[1..])))
  }

  predicate KeyLess(a: string, b: string) {
    LexLess(Rank(a), Rank(b))
  }

  lemma {:induction false} LexTotal(a: seq<int>, b: seq<int>)
    ensures a == b || LexLess(a, b) || LexLess(b, a)
    ensures LexLess(a, b) ==> a != b && !LexLess(b, a)
    decreases |a|
  {
    if a != [] && b != [] {
      LexTotal(a[1..], b[1..]);
      assert a == [a[0]] + a[1..] && b == [b[0]] + b[1..];
    }
  }

  lemma {:induction false} LexTransitive(a: seq<int>, b: seq<int>, c: seq<int>)
    requires LexLess(a, b) && LexLess(b, c)
    ensures LexLess(a, c)
    decreases |a|
  {
    if a != [] && a[0] == b[0] && b[0] == c[0] {
      LexTransitive(a[1..], b[1..], c[1..]);
    }
  }

  /** No character is a surrogate, so the first unit tells how many belong to the first character. */
  lemma UnitsUnique(c: char, x: seq<int>, d: char, y: seq<int>)
    requires Units(c) + x == Units(d) + y
    ensures c == d && x == y
  {
    var u, v := Units(c) + x, Units(d) + y;
    assert u[0] == Units(c)[0] && v[0] == Units(d)[0];
    assert |Units(c)| == |Units(d)|;
    if |Units(c)| == 2 {
      assert u[1] == Units(c)[1] && v[1] == Units(d)[1];
    }
    assert c as int == d as int;
    assert x == u[|Units(c)|..] && y == v[|Units(d)|..];
  }

  lemma {:induction false} CodesInjective(a: string, b: string)
    requires Codes(a) == Codes(b)
    ensures a == b
    decreases |a|
  {
    hide Units;
    if a != "" && b != "" {
      UnitsUnique(a[0], Codes(a[1..]), b[0], Codes(b[1..]));
      CodesInjective(a[1..], b[1..]);
      assert a == [a[0]] + a[1..] && b == [b[0]] + b[1..];
    }
  }

  lemma RankInjective(a: string, b: string)
    requires Rank(a) == Rank(b)
    ensures a == b
  {
    assert Rank(a)[0] == 0 <==> IndexKey(a);
    assert Rank(b)[0] == 0 <==> IndexKey(b);
    if IndexKey(a) {
      assert Rank(a)[2..] == Codes(a) && Rank(b)[2..] == Codes(b);
    } else {
      assert Rank(a)[1..] == Codes(a) && Rank(b)[1..] == Codes(b);
    }
    CodesInjective(a, b);
  }

  lemma KeyOrder(a: string, b: string)
    ensures a == b || KeyLess(a, b) || KeyLess(b, a)
    ensures KeyLess(a, b) ==> a != b && !KeyLess(b, a)
  {
    LexTotal(Rank(a), Rank(b));
    if Rank(a) == Rank(b) {
      RankInjective(a, b);
    }
  }

  // ---------------------------------------------------------------- sorting members

  function Insert(m: Member<Json>, ms: seq<Member<Json>>): seq<Member<Json>> {
    if ms == [] || KeyLess(m.key, ms[0].key) then [m] + ms else [ms[0]] + Insert(m, ms[1..])
  }

  function SortMembers(ms: seq<Member<Json>>): seq<Member<Json>> {
    if ms == [] then [] else Insert(ms[0], SortMembers(ms[1..]))
  }

  predicate HasKey<V>(ms: seq<Member<V>>, key: string) {
    exists i :: 0 <= i < |ms| && ms[i].key == key
  }

  predicate UniqueKeys<V>(ms: seq<Member<V>>) {
    forall i, j :: 0 <= i < j < |ms| ==> ms[i].key != ms[j].key
  }

  predicate Sorted(ms: seq<Member<Json>>) {
    ms == [] || ((forall i :: 1 <= i < |ms| ==> KeyLess(ms[0].key, ms[i].key)) && Sorted(ms[1..]))
  }

  lemma KeyLessOn(a: string, b: string, c: string)
    requires KeyLess(a, b) && KeyLess(b, c)
    ensures KeyLess(a, c)
  {
    LexTransitive(Rank(a), Rank(b), Rank(c));
  }

  lemma {:induction false} InsertHolds(m: Member<Json>, ms: seq<Member<Json>>)
    requires !HasKey(ms, m.key)
    ensures |Insert(m, ms)| == |ms| + 1
    ensures forall key :: Find(Insert(m, ms), key) == if key == m.key then Some(m.value) else Find(ms, key)
    ensures forall x :: x in Insert(m, ms) <==> x == m || x in ms
  {
    hide KeyLess;
    if ms == [] {
      assert [m][1..] == [];
    } else if KeyLess(m.key, ms[0].key) {
      assert ([m] + ms)[1..] == ms;
    } else {
      assert !HasKey(ms[1..], m.key);
      InsertHolds(m, ms[1..]);
      assert Insert(m, ms)[1..] == Insert(m, ms[1..]);
      assert ms == [ms[0]] + ms[1..];
    }
  }

  lemma {:induction false} InsertSorted(m: Member<Json>, ms: seq<Member<Json>>)
    requires Sorted(ms) && !HasKey(ms, m.key)
    ensures Sorted(Insert(m, ms))
  {
    hide KeyLess, Find;
    if ms != [] {
      KeyOrder(m.key, ms[0].key);
      if KeyLess(m.key, ms[0].key) {
        forall i | 0 <= i < |ms|
          ensures KeyLess(m.key, ms[i].key)
        {
          if i > 0 { KeyLessOn(m.key, ms[0].key, ms[i].key); }
        }
        assert ([m] + ms)[1..] == ms;
      } else {
        var rest := Insert(m, ms[1..]);
        assert !HasKey(ms[1..], m.key);
        InsertSorted(m, ms[1..]);
        InsertHolds(m, ms[1..]);
        assert ([ms[0]] + rest)[1..] == rest;
        forall i | 0 <= i < |rest|
          ensures KeyLess(ms[0].key, rest[i].key)
        {
          assert rest[i] in rest;
        }
      }
    }
  }

  lemma {:induction false} SortCorrect(ms: seq<Member<Json>>)
    requires UniqueKeys(ms)
    ensures Sorted(SortMembers(ms)) && |SortMembers(ms)| == |ms|
    ensures forall key :: Find(SortMembers(ms), key) == Find(ms, key)
    ensures forall x :: x in SortMembers(ms) <==> x in ms
  {
    hide KeyLess, Find, Insert, Sorted;
    NoneSorted();
    if ms != [] {
      SortCorrect(ms[1..]);
      var rest := SortMembers(ms[1..]);
      forall i | 0 <= i < |rest|
        ensures rest[i].key != ms[0].key
      {
        assert rest[i] in rest && rest[i] in ms[1..];
      }
      InsertHolds(ms[0], rest);
      InsertSorted(ms[0], rest);
      assert ms == [ms[0]] + ms[1..];
    }
  }

  lemma NoneSorted()
    ensures Sorted([]) && SortMembers([]) == []
  {
  }

  lemma HeadIsLeast(ms: seq<Member<Json>>, key: string)
    requires Sorted(ms) && Find(ms, key).Some?
    ensures key == ms[0].key || KeyLess(ms[0].key, key)
  {
  }

  /** Two sorted member lists that answer every lookup alike are equal. */
  lemma {:induction false} SortedUnique(a: seq<Member<Json>>, b: seq<Member<Json>>)
    requires Sorted(a) && Sorted(b)
    requires forall key :: Find(a, key) == Find(b, key)
    ensures a == b
    decreases |a|
  {
    assert a == [] <==> b == [] by {
      assert a != [] ==> Find(b, a[0].key).Some?;
      assert b != [] ==> Find(a, b[0].key).Some?;
    }
    if a != [] {
      SameHead(a, b);
      TailMisses(a);
      TailMisses(b);
      forall key
        ensures Find(a[1..], key) == Find(b[1..], key)
      {
        assert Find(a, key) == Find(b, key);
      }
      SortedUnique(a[1..], b[1..]);
      assert a == [a[0]] + a[1..] && b == [b[0]] + b[1..];
    }
  }

  lemma SameHead(a: seq<Member<Json>>, b: seq<Member<Json>>)
    requires Sorted(a) && Sorted(b) && a != [] && b != []
    requires forall key :: Find(a, key) == Find(b, key)
    ensures a[0] == b[0]
  {
    assert Find(a, a[0].key) == Some(a[0].value) && Find(b, b[0].key) == Some(b[0].value);
    HeadIsLeast(b, a[0].key);
    HeadIsLeast(a, b[0].key);
    KeyOrder(a[0].key, b[0].key);
  }

  lemma TailMisses(ms: seq<Member<Json>>)
    requires ms != [] && Sorted(ms)
    ensures Find(ms[1..], ms[0].key) == None
  {
    forall i | 0 <= i < |ms[1..]|
      ensures ms[1..][i].key != ms[0].key
    {
      KeyOrder(ms[0].key, ms[i + 1].key);
    }
  }

  // ---------------------------------------------------------------- canonical values

  /** canonicalizeAIReviewValue: the same value with the members of every object sorted. */
  function Canon(v: Json): (r: Json)
    ensures Scalar(v) ==> r == v
    ensures v.Arr? <==> r.Arr?
    ensures v.Obj? <==> r.Obj?
  {
    match v
    case Arr(items) => Arr(CanonItems(items))
    case Obj(ms) => Obj(SortMembers(CanonMembers(ms)))
    case _ => v
  }

  function CanonItems(items: seq<Json>): (r: seq<Json>)
    ensures |r| == |items|
    ensures forall i :: 0 <= i < |items| ==> r[i] == Canon(items[i])
  {
    if items == [] then [] else [Canon(items[0])] + CanonItems(items[1..])
  }

  function CanonMembers(ms: seq<Member<Json>>): (r: seq<Member<Json>>)
    ensures |r| == |ms|
    ensures forall i :: 0 <= i < |ms| ==> r[i] == Member(ms[i].key, Canon(ms[i].value))
  {
    if ms == [] then [] else [Member(ms[0].key, Canon(ms[0].value))] + CanonMembers(ms[1..])
  }

  /** No object, at any depth, has two members of one name. */
  predicate Unambiguous(v: Json) {
    match v
    case Arr(items) => forall i :: 0 <= i < |items| ==> Unambiguous(items[i])
    case Obj(ms) => UniqueKeys(ms) && forall i :: 0 <= i < |ms| ==> Unambiguous(ms[i].value)
    case _ => true
  }

  /** Equality up to the order of members, with no reference to sorting. */
  predicate SameUpToOrder(a: Json, b: Json) {
    match a
    case Arr(items) =>
      b.Arr? && |b.items| == |items| && forall i :: 0 <= i < |items| ==> SameUpToOrder(items[i], b.items[i])
    case Obj(ms) =>
      b.Obj? && |b.members| == |ms|
      && forall i :: 0 <= i < |ms| ==>
           Find(b.members, ms[i].key).Some? && SameUpToOrder(ms[i].value, Find(b.members, ms[i].key).value)
    case _ => a == b
  }

  lemma {:induction false} FindCanon(ms: seq<Member<Json>>, key: string)
    ensures Find(CanonMembers(ms), key)
         == if Find(ms, key).Some? then Some(Canon(Find(ms, key).value)) else None
  {
    if ms != [] {
      assert CanonMembers(ms)[1..] == CanonMembers(ms[1..]);
      FindCanon(ms[1..], key);
    }
  }

  lemma {:induction false} FindAt<V>(ms: seq<Member<V>>, i: nat)
    requires UniqueKeys(ms) && i < |ms|
    ensures Find(ms, ms[i].key) == Some(ms[i].value)
  {
    if i > 0 {
      FindAt(ms[1..], i - 1);
    }
  }

  function KeysOf(ms: seq<Member<Json>>): set<string> {
    set i | 0 <= i < |ms| :: ms[i].key
  }

  lemma KeysFound(ms: seq<Member<Json>>, key: string)
    ensures Find(ms, key).Some? <==> key in KeysOf(ms)
  {
  }

  lemma {:induction false} KeyCount(ms: seq<Member<Json>>)
    requires UniqueKeys(ms)
    ensures |KeysOf(ms)| == |ms|
  {
    if ms != [] {
      KeyCount(ms[1..]);
      assert KeysOf(ms) == {ms[0].key} + KeysOf(ms[1..]) by {
        assert ms == [ms[0]] + ms[1..];
      }
      assert ms[0].key !in KeysOf(ms[1..]);
    }
  }

  lemma SubsetOfSameSize(a: set<string>, b: set<string>)
    requires a <= b && |a| == |b|
    ensures a == b
  {
    assert b == a + (b - a);
  }

  /** Objects of the same size whose members are all found in the other have the same names. */
  lemma SameNames(a: seq<Member<Json>>, b: seq<Member<Json>>)
    requires UniqueKeys(a) && UniqueKeys(b) && |a| == |b|
    requires forall i :: 0 <= i < |a| ==> Find(b, a[i].key).Some?
    ensures forall key :: Find(a, key).Some? <==> Find(b, key).Some?
  {
    KeyCount(a);
    KeyCount(b);
    hide KeysOf;
    forall key
      ensures Find(a, key).Some? <==> key in KeysOf(a)
      ensures Find(b, key).Some? <==> key in KeysOf(b)
    {
      KeysFound(a, key);
      KeysFound(b, key);
    }
    NamesFound(a, b);
    SubsetOfSameSize(KeysOf(a), KeysOf(b));
  }

  lemma NamesFound(a: seq<Member<Json>>, b: seq<Member<Json>>)
    requires forall i :: 0 <= i < |a| ==> Find(b, a[i].key).Some?
    ensures KeysOf(a) <= KeysOf(b)
  {
    forall key | key in KeysOf(a)
      ensures key in KeysOf(b)
    {
      var i :| 0 <= i < |a| && a[i].key == key;
      KeysFound(b, a[i].key);
    }
  }

  lemma {:induction false} CanonEqualIffSame(a: Json, b: Json)
    requires Unambiguous(a) && Unambiguous(b)
    ensures Canon(a) == Canon(b) <==> SameUpToOrder(a, b)
    decreases a
  {
    if a.Arr? && b.Arr? {
      forall i | 0 <= i < |a.items| && |a.items| == |b.items|
        ensures Canon(a.items[i]) == Canon(b.items[i]) <==> SameUpToOrder(a.items[i], b.items[i])
      {
        CanonEqualIffSame(a.items[i], b.items[i]);
      }
      if Canon(a) == Canon(b) {
        forall i | 0 <= i < |a.items|
          ensures Canon(a.items[i]) == Canon(b.items[i])
        {
          assert CanonItems(a.items)[i] == CanonItems(b.items)[i];
        }
      }
    } else if a.Obj? && b.Obj? {
      CanonObjectEqualIffSame(a.members, b.members);
    }
  }

  /** Every member of `a` is found in `b` with the same canonical value. */
  predicate CanonAgree(a: seq<Member<Json>>, b: seq<Member<Json>>) {
    |a| == |b|
    && forall i :: 0 <= i < |a| ==>
         Find(b, a[i].key).Some? && Canon(a[i].value) == Canon(Find(b, a[i].key).value)
  }

  lemma AgreeingMembersSortAlike(a: seq<Member<Json>>, b: seq<Member<Json>>)
    requires UniqueKeys(a) && UniqueKeys(b) && CanonAgree(a, b)
    ensures SortMembers(CanonMembers(a)) == SortMembers(CanonMembers(b))
  {
    var x, y := CanonMembers(a), CanonMembers(b);
    SortCorrect(x);
    SortCorrect(y);
    SameNames(a, b);
    forall key
      ensures Find(x, key) == Find(y, key)
    {
      FindCanon(a, key);
      FindCanon(b, key);
      if Find(a, key).Some? {
        var i :| 0 <= i < |a| && a[i] == Member(key, Find(a, key).value);
      }
    }
    SortedUnique(SortMembers(x), SortMembers(y));
  }

  lemma MembersSortedAlikeAgree(a: seq<Member<Json>>, b: seq<Member<Json>>)
    requires UniqueKeys(a) && UniqueKeys(b)
    requires SortMembers(CanonMembers(a)) == SortMembers(CanonMembers(b))
    ensures CanonAgree(a, b)
  {
    var x, y := CanonMembers(a), CanonMembers(b);
    SortCorrect(x);
    SortCorrect(y);
    forall i | 0 <= i < |a|
      ensures Find(b, a[i].key).Some? && Canon(a[i].value) == Canon(Find(b, a[i].key).value)
    {
      FindCanon(a, a[i].key);
      FindCanon(b, a[i].key);
      FindAt(a, i);
      assert Find(x, a[i].key) == Find(SortMembers(x), a[i].key) == Find(y, a[i].key);
    }
  }

  lemma {:induction false} CanonObjectEqualIffSame(a: seq<Member<Json>>, b: seq<Member<Json>>)
    requires Unambiguous(Obj(a)) && Unambiguous(Obj(b))
    ensures Canon(Obj(a)) == Canon(Obj(b)) <==> SameUpToOrder(Obj(a), Obj(b))
    decreases a
  {
    forall i | 0 <= i < |a| && Find(b, a[i].key).Some?
      ensures Canon(a[i].value) == Canon(Find(b, a[i].key).value)
         <==> SameUpToOrder(a[i].value, Find(b, a[i].key).value)
    {
      var j :| 0 <= j < |b| && b[j] == Member(a[i].key, Find(b, a[i].key).value);
      CanonEqualIffSame(a[i].value, b[j].value);
    }
    assert CanonAgree(a, b) <==> SameUpToOrder(Obj(a), Obj(b));
    if CanonAgree(a, b) {
      AgreeingMembersSortAlike(a, b);
    }
    if SortMembers(CanonMembers(a)) == SortMembers(CanonMembers(b)) {
      MembersSortedAlikeAgree(a, b);
    }
  }

  // ---------------------------------------------------------------- JSON text

  /** The text of `v` followed by `rest`. */
  function Write(v: Json, rest: string): (s: string)
    ensures s != [] && s[0] != ']' && s[0] != '}' && s[0] != ','
    decreases v, 0
  {
    match v
    case Null => "null" + rest
    case Bool(b) => (if b then "true" else "false") + rest
    case Num(n) => NumberText(n) + rest
    case Str(s) => Quote(s) + rest
    case Arr(items) => ['['] + WriteItems(items, true, rest)
    case Obj(ms) => ['{'] + WriteMembers(ms, true, rest)
  }

  function WriteItems(items: seq<Json>, first: bool, rest: string): (s: string)
    ensures s != []
    decreases items
  {
    if items == [] then [']'] + rest
    else
      var text := Write(items[0], WriteItems(items[1..], false, rest));
      if first then text else [','] + text
  }

  function WriteMembers(ms: seq<Member<Json>>, first: bool, rest: string): (s: string)
    ensures s != []
    decreases ms
  {
    if ms == [] then ['}'] + rest
    else
      var text := Quote(ms[0].key) + ([':'] + Write(ms[0].value, WriteMembers(ms[1..], false, rest)));
      if first then text else [','] + text
  }

  /** The first character of a text tells the kind of value. */
  predicate Lead(v: Json, c: char) {
    match v
    case Null => c == 'n'
    case Bool(b) => c == if b then 't' else 'f'
    case Num(_) => IsDigit(c) || c == '-'
    case Str(_) => c == '"'
    case Arr(_) => c == '['
    case Obj(_) => c == '{'
  }

  lemma LeadOf(v: Json, rest: string)
    ensures Lead(v, Write(v, rest)[0])
  {
  }

  /** The text of a value can be read back in one way only. */
  lemma {:induction false} WriteUnique(a: Json, p: string, b: Json, q: string)
    requires Terminated(p) && Terminated(q)
    requires Write(a, p) == Write(b, q)
    ensures a == b && p == q
    decreases a, 0
  {
    LeadOf(a, p);
    LeadOf(b, q);
    match a
    case Null => assert p == Write(a, p)[4..] && q == Write(b, q)[4..];
    case Bool(x) =>
      var n := if x then 4 else 5;
      assert p == Write(a, p)[n..] && q == Write(b, q)[n..];
    case Num(n) => NumberTextUnique(n, p, b.n, q);
    case Str(s) => QuoteUnique(s, p, b.s, q);
    case Arr(items) =>
      assert WriteItems(items, true, p) == Write(a, p)[1..] && WriteItems(b.items, true, q) == Write(b, q)[1..];
      WriteItemsUnique(items, true, p, b.items, q);
    case Obj(ms) =>
      assert WriteMembers(ms, true, p) == Write(a, p)[1..] && WriteMembers(b.members, true, q) == Write(b, q)[1..];
      WriteMembersUnique(ms, true, p, b.members, q);
  }

  lemma {:induction false} WriteItemsUnique(a: seq<Json>, first: bool, p: string, b: seq<Json>, q: string)
    requires WriteItems(a, first, p) == WriteItems(b, first, q)
    ensures a == b && p == q
    decreases a
  {
    var x, y := WriteItems(a, first, p), WriteItems(b, first, q);
    assert a == [] <==> x[0] == ']';
    assert b == [] <==> y[0] == ']';
    if a == [] {
      assert p == x[1..] && q == y[1..];
    } else {
      var r, s := WriteItems(a[1..], false, p), WriteItems(b[1..], false, q);
      assert first || (x[1..] == Write(a[0], r) && y[1..] == Write(b[0], s));
      WriteUnique(a[0], r, b[0], s);
      WriteItemsUnique(a[1..], false, p, b[1..], q);
      assert a == [a[0]] + a[1..] && b == [b[0]] + b[1..];
    }
  }

  lemma {:induction false} WriteMembersUnique(a: seq<Member<Json>>, first: bool, p: string, b: seq<Member<Json>>, q: string)
    requires WriteMembers(a, first, p) == WriteMembers(b, first, q)
    ensures a == b && p == q
    decreases a
  {
    var x, y := WriteMembers(a, first, p), WriteMembers(b, first, q);
    assert a == [] <==> x[0] == '}';
    assert b == [] <==> y[0] == '}';
    if a == [] {
      assert p == x[1..] && q == y[1..];
    } else {
      var r, s := WriteMembers(a[1..], false, p), WriteMembers(b[1..], false, q);
      var t, u := [':'] + Write(a[0].value, r), [':'] + Write(b[0].value, s);
      assert first || (x[1..] == Quote(a[0].key) + t && y[1..] == Quote(b[0].key) + u);
      assert t[1..] == Write(a[0].value, r) && u[1..] == Write(b[0].value, s);
      QuoteUnique(a[0].key, t, b[0].key, u);
      WriteUnique(a[0].value, r, b[0].value, s);
      WriteMembersUnique(a[1..], false, p, b[1..], q);
      assert a == [a[0]] + a[1..] && b == [b[0]] + b[1..];
    }
  }

  /** The stored payload text. */
  function CanonicalText(v: Json): string {
    Write(Canon(v), "")
  }

  /** Two payloads have one text exactly when they are the same up to the order of members. */
  lemma TextIdentifiesValue(a: Json, b: Json)
    requires Unambiguous(a) && Unambiguous(b)
    ensures CanonicalText(a) == CanonicalText(b) <==> SameUpToOrder(a, b)
  {
    CanonEqualIffSame(a, b);
    if CanonicalText(a) == CanonicalText(b) {
      WriteUnique(Canon(a), "", Canon(b), "");
    }
  }
}
