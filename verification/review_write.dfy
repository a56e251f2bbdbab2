/** The document that a recovery writes: the reviewed draft takes over objects that the write meets in the log first. */
module ReviewWrite {
  import opened Json
  import opened Secrets
  import opened Redaction
  import opened Canonical
  import opened Aliasing
  import opened ReviewOutcome
  import opened ReviewLog

  // ---------------------------------------------------------------- values that were met

  /** A value all of whose nodes were met is a scalar or becomes the marker. */
  lemma MetAgain(l: Linked, seen: set<Id>)
    requires Proper(l) && Nodes(l) <= seen
    ensures RedactLinked(l, seen) == (Redact(Met(Erase(l))), seen)
  {
  }

  lemma {:induction false} MetItemsAgain(xs: seq<Linked>, seen: set<Id>)
    requires ProperItems(xs) && ItemNodes(xs) <= seen
    ensures RedactLinkedItems(xs, seen) == (RedactItems(MetItems(EraseItems(xs))), seen)
  {
    if xs != [] {
      MetAgain(xs[0], seen);
      MetItemsAgain(xs[1..], seen);
      assert MetItems(EraseItems(xs)) == [Met(Erase(xs[0]))] + MetItems(EraseItems(xs[1..]));
    }
  }

  lemma {:induction false} LinkedItemsConcat(xs: seq<Linked>, ys: seq<Linked>, seen: set<Id>)
    ensures (var a := RedactLinkedItems(xs, seen);
             var b := RedactLinkedItems(ys, a.1);
             RedactLinkedItems(xs + ys, seen) == (a.0 + b.0, b.1))
    ensures EraseItems(xs + ys) == EraseItems(xs) + EraseItems(ys)
    ensures ProperItems(xs + ys) <==> ProperItems(xs) && ProperItems(ys)
    ensures ItemNodes(xs + ys) == ItemNodes(xs) + ItemNodes(ys)
    decreases |xs|
  {
    hide RedactLinked, Erase, Proper, Nodes;
    if xs == [] {
      assert xs + ys == ys && [] + RedactLinkedItems(ys, seen).0 == RedactLinkedItems(ys, seen).0;
    } else {
      assert (xs + ys)[1..] == xs[1..] + ys;
      var head := RedactLinked(xs[0], seen);
      LinkedItemsConcat(xs[1..], ys, head.1);
      var a := RedactLinkedItems(xs[1..], head.1);
      var b := RedactLinkedItems(ys, a.1);
      assert [head.0] + (a.0 + b.0) == ([head.0] + a.0) + b.0;
    }
  }

  lemma {:induction false} RedactItemsConcat(xs: seq<Json>, ys: seq<Json>)
    ensures RedactItems(xs + ys) == RedactItems(xs) + RedactItems(ys)
  {
    hide Redact;
    if xs == [] {
      assert xs + ys == ys;
    } else {
      assert (xs + ys)[1..] == xs[1..] + ys;
      RedactItemsConcat(xs[1..], ys);
    }
  }

  // ---------------------------------------------------------------- members in spite of their common nodes

  /** Redacted once the nodes of `s` are met, the member shows what its counterpart does; a secret is masked in both. */
  predicate SameShown(m: Member<Linked>, n: Member<Json>, s: set<Id>) {
    SecretKey(m.key) || RedactLinked(m.value, s).0 == Redact(n.value)
  }

  ghost predicate Alike(x: seq<Member<Linked>>, y: seq<Member<Json>>, s: set<Id>) {
    |x| == |y| && forall i :: 0 <= i < |x| ==> x[i].key == y[i].key && SameShown(x[i], y[i], s)
  }

  /** The same, but for the members of one name. */
  ghost predicate AlikeBut(x: seq<Member<Linked>>, y: seq<Member<Json>>, s: set<Id>, skip: string) {
    |x| == |y| && forall i :: 0 <= i < |x| ==> x[i].key == y[i].key && (x[i].key == skip || SameShown(x[i], y[i], s))
  }

  /** Members have no nodes in common beyond those of `s`. */
  predicate Beyond(ms: seq<Member<Linked>>, s: set<Id>) {
    ms == []
    || (Beyond(ms[1..], s) && (!SecretKey(ms[0].key) ==> Nodes(ms[0].value) * MemberNodes(ms[1..]) <= s))
  }

  lemma {:induction false} MetOrFresh(x: seq<Member<Linked>>, y: seq<Member<Json>>, s: set<Id>, more: set<Id>)
    requires Alike(x, y, s) && ProperMembers(x) && Beyond(x, s) && MemberNodes(x) !! more - s
    ensures RedactLinkedMembers(x, s + more).0 == RedactMembers(y)
    decreases |x|
  {
    hide SecretKey, Nodes, Proper, Redact, RedactLinked;
    if x != [] {
      var next := more;
      if !SecretKey(x[0].key) {
        StrangersIgnored(x[0].value, s, more);
        VisitsOwnNodes(x[0].value, s + more);
        next := RedactLinked(x[0].value, s + more).1;
        assert s + next == next;
      }
      MetOrFresh(x[1..], y[1..], s, next);
    }
  }

  lemma {:induction false} BeyondByIndex(ms: seq<Member<Linked>>, s: set<Id>, all: set<Id>)
    requires forall i :: 0 <= i < |ms| && !SecretKey(ms[i].key) ==> Nodes(ms[i].value) <= all
    requires forall i, j :: 0 <= i < j < |ms| && !SecretKey(ms[i].key) && !SecretKey(ms[j].key) ==>
               Nodes(ms[i].value) * Nodes(ms[j].value) <= s
    requires forall i :: 0 <= i < |ms| ==> Proper(ms[i].value)
    ensures Beyond(ms, s) && ProperMembers(ms) && MemberNodes(ms) <= all
    ensures forall id :: id in MemberNodes(ms) ==> exists i :: 0 <= i < |ms| && !SecretKey(ms[i].key) && id in Nodes(ms[i].value)
  {
    hide SecretKey, Nodes, Proper;
    if ms != [] {
      BeyondByIndex(ms[1..], s, all);
      forall id | id in MemberNodes(ms)
        ensures exists i :: 0 <= i < |ms| && !SecretKey(ms[i].key) && id in Nodes(ms[i].value)
      {
        if id in MemberNodes(ms[1..]) {
          var i :| 0 <= i < |ms[1..]| && !SecretKey(ms[1..][i].key) && id in Nodes(ms[1..][i].value);
          assert ms[i + 1] == ms[1..][i];
        } else {
          assert id in Nodes(ms[0].value);
        }
      }
    }
  }

  lemma {:induction false} MembersBeyond(ms: seq<Member<Linked>>, s: set<Id>, a: string, b: string)
    requires Beyond(ms, s) && !SecretKey(a) && !SecretKey(b) && a != b
    ensures Find(ms, a).Some? && Find(ms, b).Some? ==> Nodes(Find(ms, a).value) * Nodes(Find(ms, b).value) <= s
  {
    hide SecretKey, Nodes;
    if ms != [] {
      MembersBeyond(ms[1..], s, a, b);
      MemberNodesOf(ms[1..], a);
      MemberNodesOf(ms[1..], b);
    }
  }

  // ---------------------------------------------------------------- spreads

  lemma {:induction false} OverwriteNames<V>(a: seq<Member<V>>, b: seq<Member<V>>)
    ensures |Overwrite(a, b)| == |a| && forall i :: 0 <= i < |a| ==> Overwrite(a, b)[i].key == a[i].key
  {
    if a != [] {
      OverwriteNames(a[1..], b);
    }
  }

  lemma {:induction false} AddedNames<V>(a: seq<Member<V>>, b: seq<Member<V>>)
    requires UniqueKeys(b)
    ensures UniqueKeys(Added(a, b))
    ensures forall i :: 0 <= i < |Added(a, b)| ==>
              Find(a, Added(a, b)[i].key).None? && exists j :: 0 <= j < |b| && b[j].key == Added(a, b)[i].key
  {
    if b != [] {
      AddedNames(a, b[1..]);
      var rest := Added(a, b[1..]);
      forall i | 0 <= i < |rest|
        ensures rest[i].key != b[0].key && exists j :: 0 <= j < |b| && b[j].key == rest[i].key
      {
        var j :| 0 <= j < |b[1..]| && b[1..][j].key == rest[i].key;
        assert b[j + 1].key == rest[i].key;
      }
    }
  }

  lemma UniqueConcat<V>(a: seq<Member<V>>, b: seq<Member<V>>)
    requires UniqueKeys(a) && UniqueKeys(b)
    requires forall i, j :: 0 <= i < |a| && 0 <= j < |b| ==> a[i].key != b[j].key
    ensures UniqueKeys(a + b)
  {
  }

  lemma SpreadUnique<V>(a: seq<Member<V>>, b: seq<Member<V>>)
    requires UniqueKeys(a) && UniqueKeys(b)
    ensures UniqueKeys(Spread(a, b))
  {
    OverwriteNames(a, b);
    AddedNames(a, b);
    UniqueConcat(Overwrite(a, b), Added(a, b));
  }

  /** Each member of a spread, by the operand that it comes from. */
  lemma SpreadAt<V>(a: seq<Member<V>>, b: seq<Member<V>>, i: nat)
    requires UniqueKeys(a) && UniqueKeys(b) && i < |Spread(a, b)|
    ensures (var m := Spread(a, b)[i];
             var found := if Find(b, m.key).Some? then Find(b, m.key) else Find(a, m.key);
             found == Some(m.value))
  {
    hide Spread;
    SpreadUnique(a, b);
    FindAt(Spread(a, b), i);
    SpreadFind(a, b, Spread(a, b)[i].key);
  }

  /** The same names in the same order. */
  predicate SameNamed<V, W>(x: seq<Member<V>>, y: seq<Member<W>>) {
    |x| == |y| && forall i :: 0 <= i < |x| ==> x[i].key == y[i].key
  }

  lemma {:induction false} SameNamedFind<V, W>(x: seq<Member<V>>, y: seq<Member<W>>, key: string)
    requires SameNamed(x, y)
    ensures Find(x, key).Some? <==> Find(y, key).Some?
    ensures Find(x, key).Some? ==>
              exists i :: 0 <= i < |x| && x[i] == Member(key, Find(x, key).value) && y[i] == Member(key, Find(y, key).value)
  {
    if x != [] {
      SameNamedFind(x[1..], y[1..], key);
      if x[0].key != key && Find(x, key).Some? {
        var i :| 0 <= i < |x[1..]| && x[1..][i] == Member(key, Find(x, key).value)
                 && y[1..][i] == Member(key, Find(y, key).value);
        assert x[i + 1] == x[1..][i] && y[i + 1] == y[1..][i];
      }
    }
  }

  lemma {:induction false} SameNamedAdded<V, W>(a: seq<Member<V>>, b: seq<Member<V>>, c: seq<Member<W>>, d: seq<Member<W>>)
    requires SameNamed(a, c) && SameNamed(b, d)
    ensures SameNamed(Added(a, b), Added(c, d))
    decreases |b|
  {
    if b != [] {
      SameNamedFind(a, c, b[0].key);
      SameNamedAdded(a, b[1..], c, d[1..]);
    }
  }

  lemma SameNamedSpread<V, W>(a: seq<Member<V>>, b: seq<Member<V>>, c: seq<Member<W>>, d: seq<Member<W>>)
    requires SameNamed(a, c) && SameNamed(b, d)
    ensures SameNamed(Spread(a, b), Spread(c, d))
  {
    OverwriteNames(a, b);
    OverwriteNames(c, d);
    SameNamedAdded(a, b, c, d);
  }

  lemma SameNamedUnique<V, W>(x: seq<Member<V>>, y: seq<Member<W>>)
    requires SameNamed(x, y) && UniqueKeys(x)
    ensures UniqueKeys(y)
  {
  }

  lemma AlikeIs(x: seq<Member<Linked>>, y: seq<Member<Json>>, s: set<Id>, skip: string)
    ensures AlikeBut(x, y, s, skip) ==> SameNamed(x, y)
    ensures Alike(x, y, s) ==> AlikeBut(x, y, s, skip)
  {
    hide SameShown;
  }

  lemma AlikeFind(x: seq<Member<Linked>>, y: seq<Member<Json>>, s: set<Id>, skip: string, key: string)
    requires AlikeBut(x, y, s, skip)
    ensures Find(x, key).Some? <==> Find(y, key).Some?
    ensures Find(x, key).Some? && (key != skip || Alike(x, y, s)) ==>
              SameShown(Member(key, Find(x, key).value), Member(key, Find(y, key).value), s)
  {
    hide SameShown, Find;
    SameNamedFind(x, y, key);
  }

  /** What is spread over a member of a name makes up for it. */
  lemma SpreadAlike(
    a: seq<Member<Linked>>, b: seq<Member<Linked>>, c: seq<Member<Json>>, d: seq<Member<Json>>, s: set<Id>, skip: string)
    requires AlikeBut(a, c, s, skip) && Alike(b, d, s) && UniqueKeys(a) && UniqueKeys(b)
    ensures AlikeBut(Spread(a, b), Spread(c, d), s, skip)
    ensures Find(b, skip).Some? || Alike(a, c, s) ==> Alike(Spread(a, b), Spread(c, d), s)
    ensures UniqueKeys(Spread(a, b)) && UniqueKeys(c) && UniqueKeys(d)
  {
    hide *;
    AlikeIs(a, c, s, skip);
    AlikeIs(b, d, s, skip);
    SameNamedUnique(a, c);
    SameNamedUnique(b, d);
    SpreadUnique(a, b);
    SameNamedSpread(a, b, c, d);
    var x, y := Spread(a, b), Spread(c, d);
    SameNamedIs(x, y);
    forall i | 0 <= i < |x|
      ensures (x[i].key == skip && Find(b, skip).None? && !Alike(a, c, s)) || SameShown(x[i], y[i], s)
    {
      SpreadAt(a, b, i);
      SpreadAt(c, d, i);
      AlikeFind(a, c, s, skip, x[i].key);
      AlikeFind(b, d, s, skip, x[i].key);
    }
    AlikeFrom(x, y, s, skip);
  }

  lemma SameNamedIs<V, W>(x: seq<Member<V>>, y: seq<Member<W>>)
    requires SameNamed(x, y)
    ensures |x| == |y| && forall i :: 0 <= i < |x| ==> x[i].key == y[i].key
  {
  }

  lemma AlikeFrom(x: seq<Member<Linked>>, y: seq<Member<Json>>, s: set<Id>, skip: string)
    requires |x| == |y| && forall i :: 0 <= i < |x| ==> x[i].key == y[i].key
    ensures (forall i :: 0 <= i < |x| ==> x[i].key == skip || SameShown(x[i], y[i], s)) ==> AlikeBut(x, y, s, skip)
    ensures (forall i :: 0 <= i < |x| ==> SameShown(x[i], y[i], s)) ==> Alike(x, y, s)
  {
    hide SameShown;
  }

  lemma SpreadBeyond(a: seq<Member<Linked>>, b: seq<Member<Linked>>, s: set<Id>)
    requires UniqueKeys(a) && UniqueKeys(b) && Beyond(a, s) && Beyond(b, s) && ProperMembers(a) && ProperMembers(b)
    requires MemberNodes(a) * MemberNodes(b) <= s
    ensures Beyond(Spread(a, b), s) && ProperMembers(Spread(a, b))
    ensures MemberNodes(Spread(a, b)) <= MemberNodes(a) + MemberNodes(b)
  {
    hide *;
    var x := Spread(a, b);
    SpreadUnique(a, b);
    forall i | 0 <= i < |x|
      ensures Proper(x[i].value)
      ensures !SecretKey(x[i].key) ==> Nodes(x[i].value) <= MemberNodes(a) + MemberNodes(b)
    {
      SpreadPart(a, b, i);
    }
    forall i, j | 0 <= i < j < |x| && !SecretKey(x[i].key) && !SecretKey(x[j].key)
      ensures Nodes(x[i].value) * Nodes(x[j].value) <= s
    {
      SpreadPart(a, b, i);
      SpreadPart(a, b, j);
      NamesDiffer(x, i, j);
      MembersBeyond(a, s, x[i].key, x[j].key);
      MembersBeyond(b, s, x[i].key, x[j].key);
    }
    BeyondByIndex(x, s, MemberNodes(a) + MemberNodes(b));
  }

  lemma NamesDiffer<V>(x: seq<Member<V>>, i: nat, j: nat)
    requires UniqueKeys(x) && i < j < |x|
    ensures x[i].key != x[j].key
  {
  }

  lemma SpreadPart(a: seq<Member<Linked>>, b: seq<Member<Linked>>, i: nat)
    requires UniqueKeys(a) && UniqueKeys(b) && ProperMembers(a) && ProperMembers(b) && i < |Spread(a, b)|
    ensures (var m := Spread(a, b)[i];
             && Proper(m.value)
             && (if Find(b, m.key).Some? then Find(b, m.key) == Some(m.value) else Find(a, m.key) == Some(m.value))
             && (!SecretKey(m.key) ==> Nodes(m.value) <= if Find(b, m.key).Some? then MemberNodes(b) else MemberNodes(a)))
  {
    hide *;
    SpreadAt(a, b, i);
    var key := Spread(a, b)[i].key;
    ProperMember(a, key);
    ProperMember(b, key);
    if !SecretKey(key) {
      MemberNodesOf(a, key);
      MemberNodesOf(b, key);
    }
  }

  // ---------------------------------------------------------------- the reviewed draft

  function HistoryOf(ms: seq<Member<Linked>>): seq<Linked> {
    var h := Find(ms, "history");
    if h.Some? && h.value.Items? then h.value.items else []
  }

  lemma {:induction false} DraftAlike(ms: seq<Member<Linked>>, s: set<Id>)
    requires ProperMembers(ms) && MemberNodes(ms) <= s
    ensures AlikeBut(ms, MetMembers(EraseMembers(ms)), s, "history")
  {
    hide SecretKey, Nodes, Proper, RedactLinked, Redact, Met, Erase, MetItems;
    if ms != [] {
      DraftAlike(ms[1..], s);
      if !SecretKey(ms[0].key) {
        MetAgain(ms[0].value, s);
      }
      assert EraseMembers(ms)[1..] == EraseMembers(ms[1..]);
      assert MetMembers(EraseMembers(ms))
          == [Member(ms[0].key, MetMember(EraseMembers(ms)[0]))] + MetMembers(EraseMembers(ms[1..]));
    }
  }

  lemma {:induction false} PatchAlike(ms: seq<Member<Linked>>, s: set<Id>)
    requires ProperMembers(ms) && AliasFreeMembers(ms) && MemberNodes(ms) !! s
    ensures Alike(ms, EraseMembers(ms), s) && Beyond(ms, s)
  {
    hide SecretKey, Nodes, Proper, RedactLinked, Redact, Erase, AliasFree;
    if ms != [] {
      PatchAlike(ms[1..], s);
      if !SecretKey(ms[0].key) {
        TreeShapedIffAliasFree(ms[0].value, s);
      }
      assert EraseMembers(ms)[1..] == EraseMembers(ms[1..]);
    }
  }

  /** Nothing that was met counts. */
  lemma {:induction false} DraftBeyond(ms: seq<Member<Linked>>, s: set<Id>)
    requires MemberNodes(ms) <= s
    ensures Beyond(ms, s)
  {
    hide SecretKey, Nodes;
    if ms != [] {
      DraftBeyond(ms[1..], s);
    }
  }

  lemma HistoryErased(ms: seq<Member<Linked>>, input: Input)
    requires ProperMembers(ms) && input.draft == Obj(EraseMembers(ms))
    ensures EraseItems(HistoryOf(ms)) == History(input.draft) && ProperItems(HistoryOf(ms))
  {
    FindErased(ms, "history");
    ProperMember(ms, "history");
  }

  lemma MetHistory(input: Input)
    ensures History(MetDraft(input).draft) == MetItems(History(input.draft))
  {
    MetFindHistory(Members(input.draft));
  }

  lemma {:induction false} MetFindHistory(ms: seq<Member<Json>>)
    ensures Find(MetMembers(ms), "history")
         == match Find(ms, "history")
            case None => None
            case Some(v) => Some(if v.Arr? then Arr(MetItems(v.items)) else Met(v))
  {
    if ms != [] {
      MetFindHistory(ms[1..]);
    }
  }

  lemma MetPatch(input: Input)
    ensures PatchMembers(MetDraft(input)) == PatchMembers(input)
  {
  }

  lemma ReviewedIs(input: Input, at: string, revision: nat)
    ensures Reviewed(input, at, revision)
         == Obj(Spread(Spread(Spread(Members(input.draft), PatchMembers(input)), ReviewMembers(input, at)),
                       [Member("ai_review_revision", Num(10000 * revision))]))
  {
    hide PatchMembers, ReviewMembers, Spread;
  }

  /** The reviewed draft as the commit builds it: the object and its history array are new, and so is the patch's copy. */
  datatype NewDraft = NewDraft(own: Id, members: seq<Member<Linked>>, patch: seq<Member<Linked>>, history: Id, entry: Linked)

  function MadeNodes(n: NewDraft): set<Id> {
    {n.own, n.history} + Nodes(n.entry) + MemberNodes(n.patch)
  }

  /** `n` is built from this request; what is new holds no object twice. */
  predicate BuiltFrom(n: NewDraft, input: Input, at: string) {
    && ProperMembers(n.members) && ProperMembers(n.patch) && Proper(n.entry)
    && UniqueKeys(n.members) && UniqueKeys(n.patch) && AliasFreeMembers(n.patch) && AliasFree(n.entry)
    && input.draft == Obj(EraseMembers(n.members)) && PatchMembers(input) == EraseMembers(n.patch)
    && Erase(n.entry) == ReviewEntry(input, at)
    && n.own != n.history && n.own !in Nodes(n.entry) + MemberNodes(n.patch)
    && n.history !in Nodes(n.entry) + MemberNodes(n.patch) && Nodes(n.entry) !! MemberNodes(n.patch)
  }

  function HistoryArray(n: NewDraft): Linked {
    Items(n.history, HistoryOf(n.members) + [n.entry])
  }

  /** The members that every outcome sets; the history is a new array with the old entries and a new one. */
  function LinkedReview(n: NewDraft, input: Input, at: string): seq<Member<Linked>> {
    [Member("posting_status", Leaf(Str("DRAFT"))),
     Member("ai_review_state", Leaf(Str(input.outcome.decision))),
     Member("ai_reviewed_by", Leaf(Str(input.actor))),
     Member("ai_reviewed_at", Leaf(Str(at))),
     Member("ai_review_outcome_id", Leaf(Str(input.outcome.key))),
     Member("history", HistoryArray(n))]
  }

  /** The members of the reviewed draft: the draft's own, the patch's, and the review's. */
  function NewMembers(n: NewDraft, input: Input, at: string, revision: nat): seq<Member<Linked>> {
    Spread(Spread(Spread(n.members, n.patch), LinkedReview(n, input, at)),
           [Member("ai_review_revision", Leaf(Num(10000 * revision)))])
  }

  lemma HistoryNodes(ms: seq<Member<Linked>>)
    ensures ItemNodes(HistoryOf(ms)) <= MemberNodes(ms)
  {
    HistoryIsPublic();
    MemberNodesOf(ms, "history");
    hide SecretKey;
  }

  lemma OneItem(l: Linked, seen: set<Id>)
    ensures RedactLinkedItems([l], seen) == ([RedactLinked(l, seen).0], RedactLinked(l, seen).1)
    ensures EraseItems([l]) == [Erase(l)] && ItemNodes([l]) == Nodes(l) && (ProperItems([l]) <==> Proper(l))
  {
    hide RedactLinked, Erase, Nodes, Proper;
    var xs, head := [l], RedactLinked(l, seen);
    assert xs[1..] == [];
    var rest := RedactLinkedItems(xs[1..], head.1);
    assert rest == ([], head.1) && [head.0] + rest.0 == [head.0];
    assert RedactLinkedItems(xs, seen) == ([head.0] + rest.0, rest.1);
  }

  lemma BuiltFromParts(n: NewDraft, input: Input, at: string)
    requires BuiltFrom(n, input, at)
    ensures ProperMembers(n.members) && ProperMembers(n.patch) && Proper(n.entry) && AliasFree(n.entry)
    ensures UniqueKeys(n.members) && UniqueKeys(n.patch) && AliasFreeMembers(n.patch)
    ensures input.draft == Obj(EraseMembers(n.members)) && PatchMembers(input) == EraseMembers(n.patch)
    ensures Erase(n.entry) == ReviewEntry(input, at)
    ensures n.own !in {n.history} + Nodes(n.entry) + MemberNodes(n.patch)
    ensures MemberNodes(n.patch) !! {n.history} + Nodes(n.entry) && n.history !in Nodes(n.entry)
    ensures MadeNodes(n) == {n.own, n.history} + Nodes(n.entry) + MemberNodes(n.patch)
  {
    hide ProperMembers, Proper, UniqueKeys, AliasFreeMembers, AliasFree, EraseMembers, PatchMembers, Erase, ReviewEntry,
      Nodes, MemberNodes;
  }

  /** The new history: the old entries are met, the new one is not. */
  lemma HistoryShown(n: NewDraft, input: Input, at: string, s: set<Id>)
    requires BuiltFrom(n, input, at) && MemberNodes(n.members) <= s && MadeNodes(n) !! s
    ensures RedactLinked(HistoryArray(n), s).0 == Redact(Arr(History(MetDraft(input).draft) + [ReviewEntry(input, at)]))
    ensures Proper(HistoryArray(n)) && Nodes(HistoryArray(n)) <= s + {n.history} + Nodes(n.entry)
  {
    hide *;
    var before, t := HistoryOf(n.members), s + {n.history};
    BuiltFromParts(n, input, at);
    HistoryNodes(n.members);
    HistoryErased(n.members, input);
    MetHistory(input);
    LinkedItemsConcat(before, [n.entry], t);
    MetItemsAgain(before, t);
    OneItem(n.entry, t);
    TreeShapedIffAliasFree(n.entry, t);
    RedactItemsConcat(MetItems(EraseItems(before)), [ReviewEntry(input, at)]);
    OneRedactedItem(ReviewEntry(input, at));
    ArrayParts(n.history, before + [n.entry], s);
    HistoryArrayIs(n);
    ArrayRedacted(MetItems(EraseItems(before)) + [ReviewEntry(input, at)]);
  }

  lemma HistoryArrayIs(n: NewDraft)
    ensures HistoryArray(n) == Items(n.history, HistoryOf(n.members) + [n.entry])
  {
    hide HistoryOf;
  }

  lemma ArrayRedacted(vs: seq<Json>)
    ensures Redact(Arr(vs)) == Arr(RedactItems(vs))
  {
  }

  lemma OneRedactedItem(v: Json)
    ensures RedactItems([v]) == [Redact(v)]
  {
    assert [v][1..] == [];
  }

  lemma ArrayParts(id: Id, xs: seq<Linked>, s: set<Id>)
    requires id !in s
    ensures RedactLinked(Items(id, xs), s).0 == Arr(RedactLinkedItems(xs, s + {id}).0)
    ensures (Proper(Items(id, xs)) <==> ProperItems(xs)) && Nodes(Items(id, xs)) == {id} + ItemNodes(xs)
  {
    hide RedactLinkedItems, ProperItems, ItemNodes;
  }

  lemma LeafShown(key: string, v: Json, s: set<Id>)
    requires Scalar(v)
    ensures SameShown(Member(key, Leaf(v)), Member(key, v), s) && Proper(Leaf(v)) && Nodes(Leaf(v)) == {}
  {
    hide SecretKey;
  }

  lemma ReviewNamesDiffer(n: NewDraft, input: Input, at: string)
    ensures UniqueKeys(LinkedReview(n, input, at)) && Find(LinkedReview(n, input, at), "history").Some?
  {
    hide HistoryArray, Find;
    var r := LinkedReview(n, input, at);
    assert |r[0].key| == 14 && |r[1].key| == 15 && |r[2].key| == 14 && |r[3].key| == 14 && |r[4].key| == 20 && |r[5].key| == 7;
    assert r[0].key[0] == 'p' && r[2].key[0] == 'a' && r[3].key[0] == 'a' && r[2].key[12] == 'b' && r[3].key[12] == 'a';
    FindAt(r, 5);
  }

  lemma ReviewMembersAre(input: Input, at: string)
    ensures ReviewMembers(MetDraft(input), at)
         == [Member("posting_status", Str("DRAFT")), Member("ai_review_state", Str(input.outcome.decision)),
             Member("ai_reviewed_by", Str(input.actor)), Member("ai_reviewed_at", Str(at)),
             Member("ai_review_outcome_id", Str(input.outcome.key)),
             Member("history", Arr(History(MetDraft(input).draft) + [ReviewEntry(input, at)]))]
  {
    hide History;
  }

  lemma ReviewAlike(n: NewDraft, input: Input, at: string, s: set<Id>)
    requires BuiltFrom(n, input, at) && MemberNodes(n.members) <= s && MadeNodes(n) !! s
    ensures Alike(LinkedReview(n, input, at), ReviewMembers(MetDraft(input), at), s)
    ensures Beyond(LinkedReview(n, input, at), s) && ProperMembers(LinkedReview(n, input, at))
    ensures MemberNodes(LinkedReview(n, input, at)) <= s + {n.history} + Nodes(n.entry)
  {
    hide SameShown, SecretKey, Proper, Nodes, BuiltFrom, MadeNodes, HistoryArray, ReviewMembers, MetDraft, History, ReviewEntry,
      MemberNodes, Beyond, ProperMembers;
    var r := LinkedReview(n, input, at);
    LeafShown("posting_status", Str("DRAFT"), s);
    LeafShown("ai_review_state", Str(input.outcome.decision), s);
    LeafShown("ai_reviewed_by", Str(input.actor), s);
    LeafShown("ai_reviewed_at", Str(at), s);
    LeafShown("ai_review_outcome_id", Str(input.outcome.key), s);
    HistoryShown(n, input, at, s);
    ShownIs("history", HistoryArray(n), Arr(History(MetDraft(input).draft) + [ReviewEntry(input, at)]), s);
    ReviewMembersAre(input, at);
    BeyondByIndex(r, s, s + {n.history} + Nodes(n.entry));
  }

  lemma ShownIs(key: string, l: Linked, v: Json, s: set<Id>)
    requires RedactLinked(l, s).0 == Redact(v)
    ensures SameShown(Member(key, l), Member(key, v), s)
  {
    hide SecretKey, RedactLinked, Redact;
  }

  lemma NewMembersAre(n: NewDraft, input: Input, at: string, revision: nat)
    ensures NewMembers(n, input, at, revision)
         == Spread(Spread(Spread(n.members, n.patch), LinkedReview(n, input, at)),
                   [Member("ai_review_revision", Leaf(Num(10000 * revision)))])
  {
    hide Spread, LinkedReview;
  }

  lemma RevisionShown(revision: nat, s: set<Id>)
    ensures (var x, y := [Member("ai_review_revision", Leaf(Num(10000 * revision)))],
                         [Member("ai_review_revision", Num(10000 * revision))];
             Alike(x, y, s) && Beyond(x, s) && ProperMembers(x) && MemberNodes(x) == {} && UniqueKeys(x))
  {
    hide SecretKey;
    var x := [Member("ai_review_revision", Leaf(Num(10000 * revision)))];
    assert x[1..] == [];
  }

  /** Every member of the new draft, once the old draft's nodes are met. */
  lemma NewMembersShown(n: NewDraft, input: Input, at: string, revision: nat, s: set<Id>)
    requires BuiltFrom(n, input, at) && MemberNodes(n.members) <= s && MadeNodes(n) !! s
    ensures (var x := NewMembers(n, input, at, revision);
             && Alike(x, Members(Reviewed(MetDraft(input), at, revision)), s)
             && Beyond(x, s) && ProperMembers(x) && MemberNodes(x) <= s + {n.history} + Nodes(n.entry) + MemberNodes(n.patch))
  {
    hide *;
    BuiltFromParts(n, input, at);
    var r, rev := LinkedReview(n, input, at), [Member("ai_review_revision", Leaf(Num(10000 * revision)))];
    var first := Spread(n.members, n.patch);
    var second := Spread(first, r);
    DraftAlike(n.members, s);
    DraftBeyond(n.members, s);
    PatchAlike(n.patch, s);
    ReviewAlike(n, input, at, s);
    ReviewNamesDiffer(n, input, at);
    RevisionShown(revision, s);
    MetDraftMembers(n, input, at);
    MetPatch(input);
    ReviewedIs(MetDraft(input), at, revision);
    ReviewedMembers(MetDraft(input), at, revision);
    NewMembersAre(n, input, at, revision);
    SpreadAlike(n.members, n.patch, Members(MetDraft(input).draft), PatchMembers(input), s, "history");
    SpreadAlike(first, r, Spread(Members(MetDraft(input).draft), PatchMembers(input)),
                ReviewMembers(MetDraft(input), at), s, "history");
    var shown := Spread(Spread(Members(MetDraft(input).draft), PatchMembers(input)), ReviewMembers(MetDraft(input), at));
    AlikeIs(second, shown, s, "");
    SpreadAlike(second, rev, shown, [Member("ai_review_revision", Num(10000 * revision))], s, "");
    SpreadBeyond(n.members, n.patch, s);
    SpreadBeyond(first, r, s);
    SpreadBeyond(second, rev, s);
  }

  lemma ReviewedMembers(input: Input, at: string, revision: nat)
    ensures Reviewed(input, at, revision) == Obj(Members(Reviewed(input, at, revision)))
  {
    hide Applied, Spread;
  }

  lemma MetDraftMembers(n: NewDraft, input: Input, at: string)
    requires BuiltFrom(n, input, at)
    ensures Members(MetDraft(input).draft) == MetMembers(EraseMembers(n.members))
  {
    hide MetMembers, EraseMembers;
  }

  function NewDraftObject(n: NewDraft, input: Input, at: string, revision: nat): Linked {
    Fields(n.own, NewMembers(n, input, at, revision))
  }

  /**
   * Once the request's draft has been met, the reviewed draft built from it is written as the tree that MetDraft
   * describes: nested members that no outcome replaced are markers, and so are the old history entries.
   */
  lemma TakenOverDraftIsMet(n: NewDraft, input: Input, at: string, revision: nat, s: set<Id>)
    requires BuiltFrom(n, input, at) && MemberNodes(n.members) <= s && MadeNodes(n) !! s
    ensures (var l := NewDraftObject(n, input, at, revision);
             && RedactLinked(l, s).0 == Redact(Reviewed(MetDraft(input), at, revision))
             && Proper(l) && Nodes(l) <= s + MadeNodes(n))
  {
    hide *;
    BuiltFromParts(n, input, at);
    NewMembersShown(n, input, at, revision, s);
    var x, y := NewMembers(n, input, at, revision), Members(Reviewed(MetDraft(input), at, revision));
    MetOrFresh(x, y, s, {n.own});
    ReviewedMembers(MetDraft(input), at, revision);
    NewDraftIs(n, input, at, revision);
    ObjectParts(n.own, x, s);
    ObjectRedacted(y);
  }

  lemma NewDraftIs(n: NewDraft, input: Input, at: string, revision: nat)
    ensures NewDraftObject(n, input, at, revision) == Fields(n.own, NewMembers(n, input, at, revision))
  {
    hide NewMembers;
  }

  lemma ObjectParts(id: Id, ms: seq<Member<Linked>>, s: set<Id>)
    requires id !in s
    ensures RedactLinked(Fields(id, ms), s) == (Obj(RedactLinkedMembers(ms, s + {id}).0), RedactLinkedMembers(ms, s + {id}).1)
    ensures (Proper(Fields(id, ms)) <==> ProperMembers(ms)) && Nodes(Fields(id, ms)) == {id} + MemberNodes(ms)
  {
    hide RedactLinkedMembers, ProperMembers, MemberNodes;
  }

  lemma ObjectRedacted(ms: seq<Member<Json>>)
    ensures Redact(Obj(ms)) == Obj(RedactMembers(ms))
  {
    hide RedactMembers;
  }

  // ---------------------------------------------------------------- the whole document

  /** The stored document as one object: log, drafts and events. */
  datatype LinkedDoc = LinkedDoc(root: Id, wals: Linked, list: Id, others: seq<Linked>, events: Linked)

  function DocObject(d: LinkedDoc, drafts: seq<Linked>): Linked {
    Fields(d.root, [Member("wals", d.wals), Member("drafts", Items(d.list, drafts)), Member("events", d.events)])
  }

  /** The parts of the document as they were read: no object occurs twice among them. */
  predicate ReadDoc(d: LinkedDoc) {
    && Proper(d.wals) && ProperItems(d.others) && Proper(d.events)
    && AliasFree(d.wals) && AliasFreeItems(d.others) && AliasFree(d.events)
    && d.root !in Nodes(d.wals) + {d.list} + ItemNodes(d.others) + Nodes(d.events)
    && d.list !in Nodes(d.wals) + ItemNodes(d.others) + Nodes(d.events)
    && Nodes(d.wals) !! ItemNodes(d.others) && Nodes(d.wals) + ItemNodes(d.others) !! Nodes(d.events)
  }

  function DocNodes(d: LinkedDoc): set<Id> {
    {d.root, d.list} + Nodes(d.wals) + ItemNodes(d.others) + Nodes(d.events)
  }

  lemma ReadDocParts(d: LinkedDoc)
    requires ReadDoc(d)
    ensures Proper(d.wals) && ProperItems(d.others) && Proper(d.events)
    ensures AliasFree(d.wals) && AliasFreeItems(d.others) && AliasFree(d.events)
    ensures Nodes(d.wals) !! {d.root} && ItemNodes(d.others) !! {d.root} + Nodes(d.wals) + {d.list}
    ensures Nodes(d.events) !! {d.root} + Nodes(d.wals) + {d.list} + ItemNodes(d.others)
    ensures d.list !in {d.root} + Nodes(d.wals)
    ensures DocNodes(d) == {d.root, d.list} + Nodes(d.wals) + ItemNodes(d.others) + Nodes(d.events)
  {
    hide Proper, ProperItems, AliasFree, AliasFreeItems, Nodes, ItemNodes;
  }

  lemma ThreeRedacted(a: Member<Linked>, b: Member<Linked>, c: Member<Linked>, s: set<Id>)
    requires !SecretKey(a.key) && !SecretKey(b.key) && !SecretKey(c.key)
    ensures (var x := RedactLinked(a.value, s);
             var y := RedactLinked(b.value, x.1);
             var z := RedactLinked(c.value, y.1);
             RedactLinkedMembers([a, b, c], s).0 == [Member(a.key, x.0), Member(b.key, y.0), Member(c.key, z.0)])
  {
    hide SecretKey, RedactLinked;
    var ms := [a, b, c];
    assert ms[1..] == [b, c] && ms[1..][1..] == [c] && ms[1..][1..][1..] == [];
    var x := RedactLinked(a.value, s);
    var y := RedactLinked(b.value, x.1);
    LinkedMembersHead(ms, s);
    LinkedMembersHead(ms[1..], x.1);
    LinkedMembersHead(ms[1..][1..], y.1);
  }

  lemma DraftsShown(d: LinkedDoc, n: NewDraft, input: Input, at: string, revision: nat, s: set<Id>)
    requires ReadDoc(d) && BuiltFrom(n, input, at) && MemberNodes(n.members) <= s
    requires d.list !in s && ItemNodes(d.others) !! s && MadeNodes(n) !! s + {d.list} + ItemNodes(d.others)
    ensures (var r := RedactLinked(Items(d.list, d.others + [NewDraftObject(n, input, at, revision)]), s);
             && r.0 == Arr(RedactItems(EraseItems(d.others)) + [Redact(Reviewed(MetDraft(input), at, revision))])
             && r.1 <= s + {d.list} + ItemNodes(d.others) + MadeNodes(n))
  {
    hide *;
    ReadDocParts(d);
    var t, l := s + {d.list}, NewDraftObject(n, input, at, revision);
    TreeShapedItems(d.others, t);
    TakenOverDraftIsMet(n, input, at, revision, t + ItemNodes(d.others));
    LinkedItemsConcat(d.others, [l], t);
    OneItem(l, t + ItemNodes(d.others));
    VisitsOwnNodes(l, t + ItemNodes(d.others));
    ArrayNext(d.list, d.others + [l], s);
  }

  lemma ArrayNext(id: Id, xs: seq<Linked>, s: set<Id>)
    requires id !in s
    ensures RedactLinked(Items(id, xs), s) == (Arr(RedactLinkedItems(xs, s + {id}).0), RedactLinkedItems(xs, s + {id}).1)
  {
    hide RedactLinkedItems;
  }

  /**
   * Saving a document whose new draft takes over the objects of a draft in the log: log, other drafts and events
   * are written as the trees they are, and the new draft as MetDraft says.
   */
  lemma SharedDocumentIsMet(d: LinkedDoc, n: NewDraft, input: Input, at: string, revision: nat)
    requires ReadDoc(d) && BuiltFrom(n, input, at)
    requires MemberNodes(n.members) <= Nodes(d.wals) && MadeNodes(n) !! DocNodes(d)
    ensures RedactLinked(DocObject(d, d.others + [NewDraftObject(n, input, at, revision)]), {}).0
         == Obj([Member("wals", Redact(Erase(d.wals))),
                 Member("drafts", Arr(RedactItems(EraseItems(d.others)) + [Redact(Reviewed(MetDraft(input), at, revision))])),
                 Member("events", Redact(Erase(d.events)))])
  {
    hide *;
    ReadDocParts(d);
    WalsIsPublic();
    DraftsIsPublic();
    EventsIsPublic();
    var drafts := d.others + [NewDraftObject(n, input, at, revision)];
    var a, b, c := Member("wals", d.wals), Member("drafts", Items(d.list, drafts)), Member("events", d.events);
    var s := {d.root} + Nodes(d.wals);
    TreeShapedIffAliasFree(d.wals, {d.root});
    DraftsShown(d, n, input, at, revision, s);
    TreeShapedIffAliasFree(d.events, RedactLinked(b.value, s).1);
    ThreeRedacted(a, b, c, {d.root});
    DocObjectIs(d, drafts);
    ObjectParts(d.root, [a, b, c], {});
    assert {} + {d.root} == {d.root};
  }

  lemma DocObjectIs(d: LinkedDoc, drafts: seq<Linked>)
    ensures DocObject(d, drafts)
         == Fields(d.root, [Member("wals", d.wals), Member("drafts", Items(d.list, drafts)), Member("events", d.events)])
  {
  }

  lemma {:induction false} DraftItems(ds: seq<Json>)
    ensures RedactDrafts(ds) == RedactItems(ds)
  {
    hide Redact;
    if ds != [] {
      DraftItems(ds[1..]);
    }
  }

  lemma SharedCommitIs(doc: Doc, row: Row, t: Times, recovered: bool)
    ensures (var revision := NextRevision(doc, row);
             RedactDoc(CommitDoc(doc, row, t, recovered, true)).drafts
             == RedactItems(OtherDrafts(doc.drafts, ProposalId(row.input.draft))
                            + [Reviewed(MetDraft(row.input), t.reviewed, revision)]))
  {
    hide RedactDrafts, RedactItems, OtherDrafts, Reviewed, MetDraft, NextRevision, ProposalId, NewEvent, MarkRows, RedactRows;
    DraftItems(OtherDrafts(doc.drafts, ProposalId(row.input.draft))
               + [Reviewed(MetDraft(row.input), t.reviewed, NextRevision(doc, row))]);
  }

  /** So the first row that a recovery commits stores the drafts that a shared commit describes. */
  lemma SharedCommitIsWritten(doc: Doc, row: Row, t: Times, recovered: bool, d: LinkedDoc, n: NewDraft)
    requires ReadDoc(d) && BuiltFrom(n, row.input, t.reviewed)
    requires MemberNodes(n.members) <= Nodes(d.wals) && MadeNodes(n) !! DocNodes(d)
    requires EraseItems(d.others) == OtherDrafts(doc.drafts, ProposalId(row.input.draft))
    ensures (var drafts := d.others + [NewDraftObject(n, row.input, t.reviewed, NextRevision(doc, row))];
             Get(RedactLinked(DocObject(d, drafts), {}).0, "drafts")
             == Arr(RedactDoc(CommitDoc(doc, row, t, recovered, true)).drafts))
  {
    hide *;
    var revision := NextRevision(doc, row);
    SharedDocumentIsMet(d, n, row.input, t.reviewed, revision);
    SharedCommitIs(doc, row, t, recovered);
    RedactItemsConcat(EraseItems(d.others), [Reviewed(MetDraft(row.input), t.reviewed, revision)]);
    OneRedactedItem(Reviewed(MetDraft(row.input), t.reviewed, revision));
    SecondOfThree(Redact(Erase(d.wals)), Arr(RedactDoc(CommitDoc(doc, row, t, recovered, true)).drafts),
                  Redact(Erase(d.events)));
  }

  lemma SecondOfThree(a: Json, b: Json, c: Json)
    ensures Get(Obj([Member("wals", a), Member("drafts", b), Member("events", c)]), "drafts") == b
  {
    var ms := [Member("wals", a), Member("drafts", b), Member("events", c)];
    assert |"wals"| == 4 && |"drafts"| == 6;
    assert ms[1..][0] == Member("drafts", b);
  }
}
