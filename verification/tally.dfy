/** Sums over lists and over their classes, and lists read as sets. */
module Tally {

  predicate NoRepeats<T(==)>(s: seq<T>) {
    forall i, j :: 0 <= i < j < |s| ==> s[i] != s[j]
  }

  function Elements<T(==)>(s: seq<T>): set<T> {
    set i | 0 <= i < |s| :: s[i]
  }

  /** A list without repetitions is as long as its set of elements, so its length does not depend on its order. */
  lemma {:induction false} LengthIsSize<T>(s: seq<T>)
    requires NoRepeats(s)
    ensures |s| == |Elements(s)|
  {
    if s != [] {
      LengthIsSize(s[1..]);
      assert Elements(s) == {s[0]} + Elements(s[1..]) by {
        assert s == [s[0]] + s[1..];
      }
      assert s[0] !in Elements(s[1..]);
    }
  }

  lemma {:induction false} SubsetIsSmaller<T>(a: set<T>, b: set<T>)
    requires a <= b
    ensures |a| <= |b|
  {
    if a != {} {
      var x :| x in a;
      SubsetIsSmaller(a - {x}, b - {x});
    }
  }

  /** A list without repetitions is no longer than another that contains its elements. */
  lemma ContainedIsShorter<T>(a: seq<T>, b: seq<T>)
    requires NoRepeats(a) && NoRepeats(b) && forall x :: x in a ==> x in b
    ensures |a| <= |b|
  {
    LengthIsSize(a);
    LengthIsSize(b);
    forall x | x in Elements(a)
      ensures x in Elements(b)
    {
      assert x in a && x in b;
      var i :| 0 <= i < |b| && b[i] == x;
    }
    SubsetIsSmaller(Elements(a), Elements(b));
  }

  /** The place in `b` of each element of a reordering `a`, each place taken once. */
  lemma {:induction false} Matching<T>(a: seq<T>, b: seq<T>) returns (places: seq<nat>)
    requires multiset(a) == multiset(b)
    ensures |places| == |a| && NoRepeats(places)
    ensures forall i :: 0 <= i < |a| ==> places[i] < |b| && b[places[i]] == a[i]
    decreases |a|
  {
    if a == [] {
      places := [];
    } else {
      assert a[0] in multiset(b);
      var i :| 0 <= i < |b| && b[i] == a[0];
      TakenOut(b, i);
      HeadTakenOut(a);
      var rest := Matching(a[1..], b[..i] + b[i + 1..]);
      places := [i] + Shifted(rest, i);
      ShiftedMatch(a, b, i, rest);
    }
  }

  /** Places in a list from which the i-th element was taken, as places in that list. */
  function Shifted(places: seq<nat>, i: nat): (r: seq<nat>)
    ensures |r| == |places| && forall n :: 0 <= n < |r| ==> r[n] == if places[n] < i then places[n] else places[n] + 1
  {
    if places == [] then [] else [if places[0] < i then places[0] else places[0] + 1] + Shifted(places[1..], i)
  }

  lemma ShiftedMatch<T>(a: seq<T>, b: seq<T>, i: nat, rest: seq<nat>)
    requires a != [] && i < |b| && b[i] == a[0] && |rest| == |a| - 1 && NoRepeats(rest)
    requires forall n :: 0 <= n < |rest| ==> rest[n] < |b| - 1 && (b[..i] + b[i + 1..])[rest[n]] == a[1..][n]
    ensures (var places := [i] + Shifted(rest, i);
             NoRepeats(places) && forall n :: 0 <= n < |a| ==> places[n] < |b| && b[places[n]] == a[n])
  {
    hide Shifted;
    var shifted := Shifted(rest, i);
    var places := [i] + shifted;
    forall n | 0 <= n < |a|
      ensures places[n] < |b| && b[places[n]] == a[n]
    {
      if n > 0 {
        assert a[1..][n - 1] == a[n] && places[n] == shifted[n - 1];
        ShiftedAt(b, i, rest[n - 1]);
      }
    }
    forall x, y | 0 <= x < y < |places|
      ensures places[x] != places[y]
    {
      assert places[y] == shifted[y - 1];
      if x > 0 {
        assert places[x] == shifted[x - 1] && rest[x - 1] != rest[y - 1];
      }
    }
  }

  lemma ShiftedAt<T>(b: seq<T>, i: nat, k: nat)
    requires i < |b| && k < |b| - 1
    ensures (b[..i] + b[i + 1..])[k] == b[if k < i then k else k + 1]
  {
  }

  /** The sum of `w` over a list. */
  function Sum<T>(s: seq<T>, w: T -> int): int {
    if s == [] then 0 else w(s[0]) + Sum(s[1..], w)
  }

  lemma {:induction false} SumConcat<T>(a: seq<T>, b: seq<T>, w: T -> int)
    ensures Sum(a + b, w) == Sum(a, w) + Sum(b, w)
  {
    if a == [] {
      assert a + b == b;
    } else {
      assert (a + b)[1..] == a[1..] + b;
      SumConcat(a[1..], b, w);
    }
  }

  lemma {:induction false} SumSame<T>(s: seq<T>, v: T -> int, w: T -> int)
    requires forall x :: x in s ==> v(x) == w(x)
    ensures Sum(s, v) == Sum(s, w)
  {
    if s != [] {
      SumSame(s[1..], v, w);
    }
  }

  lemma {:induction false} SumAtMost<T>(s: seq<T>, v: T -> int, w: T -> int)
    requires forall x :: x in s ==> v(x) <= w(x)
    ensures Sum(s, v) <= Sum(s, w)
  {
    if s != [] {
      SumAtMost(s[1..], v, w);
    }
  }

  lemma {:induction false} SumPlus<T>(s: seq<T>, v: T -> int, w: T -> int)
    ensures Sum(s, x => v(x) + w(x)) == Sum(s, v) + Sum(s, w)
  {
    if s != [] {
      SumPlus(s[1..], v, w);
    }
  }

  lemma {:induction false} SumNegated<T>(s: seq<T>, w: T -> int)
    ensures Sum(s, x => -w(x)) == -Sum(s, w)
  {
    if s != [] {
      SumNegated(s[1..], w);
    }
  }

  lemma TakenOut<T>(s: seq<T>, i: nat)
    requires i < |s|
    ensures multiset(s[..i] + s[i + 1..]) == multiset(s) - multiset{s[i]}
  {
    assert s == s[..i] + ([s[i]] + s[i + 1..]);
  }

  lemma HeadTakenOut<T>(s: seq<T>)
    requires s != []
    ensures multiset(s[1..]) == multiset(s) - multiset{s[0]}
  {
    assert s == [s[0]] + s[1..];
  }

  /** Taking one element out of a list. */
  lemma {:induction false} SumWithout<T>(s: seq<T>, i: nat, w: T -> int)
    requires i < |s|
    ensures Sum(s, w) == w(s[i]) + Sum(s[..i] + s[i + 1..], w)
  {
    assert s == s[..i] + ([s[i]] + s[i + 1..]);
    SumConcat(s[..i], [s[i]] + s[i + 1..], w);
    SumConcat(s[..i], s[i + 1..], w);
    assert ([s[i]] + s[i + 1..])[1..] == s[i + 1..];
  }

  /** A sum does not depend on the order of the list. */
  lemma {:induction false} SumReordered<T>(a: seq<T>, b: seq<T>, w: T -> int)
    requires multiset(a) == multiset(b)
    ensures Sum(a, w) == Sum(b, w)
    decreases |a|
  {
    if a == [] {
      assert |multiset(b)| == |b|;
    } else {
      assert a[0] in multiset(b);
      var i :| 0 <= i < |b| && b[i] == a[0];
      SumWithout(b, i, w);
      TakenOut(b, i);
      HeadTakenOut(a);
      SumReordered(a[1..], b[..i] + b[i + 1..], w);
    }
  }

  lemma {:induction false} SetEqualsMultiset<T>(a: seq<T>, b: seq<T>)
    requires NoRepeats(a) && NoRepeats(b) && (forall x :: x in a <==> x in b)
    ensures multiset(a) == multiset(b)
  {
    forall x
      ensures multiset(a)[x] == multiset(b)[x]
    {
      NoRepeatsCount(a, x);
      NoRepeatsCount(b, x);
    }
  }

  lemma {:induction false} NoRepeatsCount<T>(s: seq<T>, x: T)
    requires NoRepeats(s)
    ensures multiset(s)[x] == if x in s then 1 else 0
  {
    if s != [] {
      NoRepeatsCount(s[1..], x);
      assert s == [s[0]] + s[1..];
    }
  }

  /** The part of a sum that falls on one class. */
  function ClassSum<T, K(==)>(s: seq<T>, key: T -> K, w: T -> int, k: K): int {
    Sum(s, x => if key(x) == k then w(x) else 0)
  }

  lemma ClassSumSame<T, K>(s: seq<T>, key: T -> K, v: T -> int, w: T -> int, k: K)
    requires forall x :: x in s && key(x) == k ==> v(x) == w(x)
    ensures ClassSum(s, key, v, k) == ClassSum(s, key, w, k)
  {
    SumSame(s, x => if key(x) == k then v(x) else 0, x => if key(x) == k then w(x) else 0);
  }

  lemma ClassSumReordered<T, K>(a: seq<T>, b: seq<T>, key: T -> K, w: T -> int, k: K)
    requires multiset(a) == multiset(b)
    ensures ClassSum(a, key, w, k) == ClassSum(b, key, w, k)
  {
    SumReordered(a, b, x => if key(x) == k then w(x) else 0);
  }

  lemma {:induction false} BumpOne<K>(ks: seq<K>, f: K -> int, g: K -> int, k: K, c: int)
    requires NoRepeats(ks)
    requires forall x :: x in ks ==> g(x) == f(x) + (if x == k then c else 0)
    ensures Sum(ks, g) == Sum(ks, f) + (if k in ks then c else 0)
  {
    if ks != [] {
      assert k in ks <==> k == ks[0] || k in ks[1..];
      BumpOne(ks[1..], f, g, k, c);
    }
  }

  /** Summing class by class is summing, when every element that weighs anything has its class listed once. */
  lemma {:induction false} SumByClass<T, K>(s: seq<T>, key: T -> K, w: T -> int, ks: seq<K>)
    requires NoRepeats(ks)
    requires forall x :: x in s && w(x) != 0 ==> key(x) in ks
    ensures Sum(ks, k => ClassSum(s, key, w, k)) == Sum(s, w)
  {
    if s == [] {
      ZeroSum(ks, k => ClassSum(s, key, w, k));
    } else {
      SumByClass(s[1..], key, w, ks);
      forall k | k in ks
        ensures ClassSum(s, key, w, k) == ClassSum(s[1..], key, w, k) + (if k == key(s[0]) then w(s[0]) else 0)
      {
      }
      BumpOne(ks, k => ClassSum(s[1..], key, w, k), k => ClassSum(s, key, w, k), key(s[0]), w(s[0]));
    }
  }

  lemma {:induction false} ZeroSum<K>(ks: seq<K>, f: K -> int)
    requires forall k :: k in ks ==> f(k) == 0
    ensures Sum(ks, f) == 0
  {
    if ks != [] {
      ZeroSum(ks[1..], f);
    }
  }

  /** The classes of the kept elements, each once. */
  function ClassesOf<T, K(==,!new)>(s: seq<T>, key: T -> K, keep: T -> bool): (r: seq<K>)
    ensures NoRepeats(r)
    ensures forall k :: k in r <==> exists i :: 0 <= i < |s| && keep(s[i]) && key(s[i]) == k
  {
    if s == [] then [] else
      var rest := ClassesOf(s[1..], key, keep);
      ClassesNext(s, key, keep, rest);
      if keep(s[0]) && key(s[0]) !in rest then [key(s[0])] + rest else rest
  }

  lemma ClassesNext<T, K(!new)>(s: seq<T>, key: T -> K, keep: T -> bool, rest: seq<K>)
    requires s != [] && forall k :: k in rest <==> exists i :: 0 <= i < |s[1..]| && keep(s[1..][i]) && key(s[1..][i]) == k
    ensures forall k :: (k in rest || (keep(s[0]) && key(s[0]) == k))
                   <==> exists i :: 0 <= i < |s| && keep(s[i]) && key(s[i]) == k
  {
    forall k
      ensures (k in rest || (keep(s[0]) && key(s[0]) == k)) <==> exists i :: 0 <= i < |s| && keep(s[i]) && key(s[i]) == k
    {
      if k in rest {
        var i :| 0 <= i < |s[1..]| && keep(s[1..][i]) && key(s[1..][i]) == k;
        assert keep(s[i + 1]) && key(s[i + 1]) == k;
      }
      if i :| 0 <= i < |s| && keep(s[i]) && key(s[i]) == k {
        assert i > 0 ==> s[1..][i - 1] == s[i];
      }
    }
  }

  lemma ClassSumAppend<T, K>(s: seq<T>, x: T, key: T -> K, w: T -> int, k: K)
    ensures ClassSum(s + [x], key, w, k) == ClassSum(s, key, w, k) + (if key(x) == k then w(x) else 0)
  {
    var f := y => if key(y) == k then w(y) else 0;
    SumConcat(s, [x], f);
    assert Sum([x], f) == f(x) + Sum([x][1..], f);
  }

  /** A weight that changes sign under a pairing of the keys sums to zero. */
  lemma {:induction false} MirroredSumIsZero<K>(ks: seq<K>, w: K -> int, mirror: K -> K)
    requires NoRepeats(ks)
    requires forall k :: k in ks ==> mirror(k) in ks && mirror(mirror(k)) == k && w(mirror(k)) == -w(k)
    ensures Sum(ks, w) == 0
  {
    var ms := Mirrored(ks, mirror);
    MirroredIsReordering(ks, mirror);
    SetEqualsMultiset(ms, ks);
    SumReordered(ms, ks, w);
    MirroredSum(ks, w, mirror);
    SumSame(ks, k => w(mirror(k)), k => -w(k));
    SumNegated(ks, w);
  }

  /** Pairing the keys off only changes their order. */
  lemma MirroredIsReordering<K>(ks: seq<K>, mirror: K -> K)
    requires NoRepeats(ks) && forall k :: k in ks ==> mirror(k) in ks && mirror(mirror(k)) == k
    ensures NoRepeats(Mirrored(ks, mirror)) && forall x :: x in Mirrored(ks, mirror) <==> x in ks
  {
    hide Mirrored;
    var ms := Mirrored(ks, mirror);
    forall i, j | 0 <= i < j < |ms|
      ensures ms[i] != ms[j]
    {
      assert ks[i] in ks && ks[j] in ks;
      assert mirror(ms[i]) == ks[i] && mirror(ms[j]) == ks[j];
    }
    forall x
      ensures x in ms <==> x in ks
    {
      if x in ks {
        assert mirror(x) in ks;
        var i :| 0 <= i < |ks| && ks[i] == mirror(x);
        assert ms[i] == mirror(ks[i]) == x;
      }
      if x in ms {
        var i :| 0 <= i < |ms| && ms[i] == x;
        assert ks[i] in ks;
      }
    }
  }

  function Mirrored<K>(ks: seq<K>, mirror: K -> K): (r: seq<K>)
    ensures |r| == |ks| && forall i :: 0 <= i < |ks| ==> r[i] == mirror(ks[i])
  {
    if ks == [] then [] else [mirror(ks[0])] + Mirrored(ks[1..], mirror)
  }

  lemma {:induction false} MirroredSum<K>(ks: seq<K>, w: K -> int, mirror: K -> K)
    ensures Sum(Mirrored(ks, mirror), w) == Sum(ks, k => w(mirror(k)))
  {
    if ks != [] {
      assert Mirrored(ks, mirror)[1..] == Mirrored(ks[1..], mirror);
      MirroredSum(ks[1..], w, mirror);
    }
  }

  // ---------------------------------------------------------------- keys that occur twice

  function Occurrences<K(==)>(keys: seq<K>, k: K): nat {
    multiset(keys)[k]
  }

  lemma OccurrencesNext<K>(keys: seq<K>, i: nat)
    requires i < |keys|
    ensures multiset(keys[..i + 1]) == multiset(keys[..i]) + multiset{keys[i]}
  {
    assert keys[..i + 1] == keys[..i] + [keys[i]];
  }

  /** How often each key of the list occurs; keys that do not occur are not listed. */
  ghost predicate Counts<K(!new)>(groups: map<K, nat>, keys: seq<K>) {
    forall k :: (k in groups <==> multiset(keys)[k] > 0) && (k in groups ==> groups[k] == multiset(keys)[k])
  }

  lemma CountsNext<K(!new)>(groups: map<K, nat>, keys: seq<K>, i: nat)
    requires i < |keys| && Counts(groups, keys[..i])
    ensures Counts(groups[keys[i] := (if keys[i] in groups then groups[keys[i]] else 0) + 1], keys[..i + 1])
  {
    OccurrencesNext(keys, i);
  }

  lemma NoRepeatsAppend<K>(s: seq<K>, k: K)
    requires NoRepeats(s) && k !in s
    ensures NoRepeats(s + [k])
  {
  }

  lemma NotEarlier<K>(s: seq<K>, n: nat)
    requires NoRepeats(s) && n < |s|
    ensures s[n] !in s[..n] && s[..n + 1] == s[..n] + [s[n]]
  {
  }

  /** Groups a list by key, in order of first appearance, and reports each group of two or more once. */
  method RepeatedKeys<K(==,!new)>(keys: seq<K>) returns (reported: seq<K>)
    ensures NoRepeats(reported)
    ensures forall k :: k in reported <==> Occurrences(keys, k) >= 2
  {
    hide NoRepeats, Counts;
    var order: seq<K>, groups: map<K, nat> := [], map[];
    Nothing<K>();
    var i := 0;
    while i < |keys|
      invariant 0 <= i <= |keys|
      invariant NoRepeats(order) && forall k :: k in order <==> k in groups
      invariant Counts(groups, keys[..i])
    {
      CountsNext(groups, keys, i);
      if keys[i] !in groups {
        NoRepeatsAppend(order, keys[i]);
        order := order + [keys[i]];
      }
      groups := groups[keys[i] := (if keys[i] in groups then groups[keys[i]] else 0) + 1];
      i := i + 1;
    }
    assert keys[..i] == keys;
    reported := [];
    var n := 0;
    while n < |order|
      invariant 0 <= n <= |order|
      invariant NoRepeats(reported)
      invariant forall k :: k in reported <==> k in order[..n] && groups[k] >= 2
    {
      NotEarlier(order, n);
      if groups[order[n]] >= 2 {
        NoRepeatsAppend(reported, order[n]);
        reported := reported + [order[n]];
      }
      n := n + 1;
    }
    assert order[..n] == order;
    CountsAre(groups, keys);
  }

  lemma Nothing<K(!new)>()
    ensures NoRepeats<K>([]) && Counts<K>(map[], [])
  {
  }

  lemma CountsAre<K(!new)>(groups: map<K, nat>, keys: seq<K>)
    requires Counts(groups, keys)
    ensures forall k :: Occurrences(keys, k) == if k in groups then groups[k] else 0
  {
  }
}
