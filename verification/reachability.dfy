/** Which objects of a heap one redaction copies, stated by chains of references instead of by the recursion. */
module Reachability {
  import opened Json
  import opened Secrets
  import opened Redaction

  // ---------------------------------------------------------------- one item or member at a time

  ghost predicate WellformedItems(g: Graph, vs: seq<Value>) {
    forall i :: 0 <= i < |vs| ==> Wellformed(g, vs[i])
  }

  ghost predicate WellformedMembers(g: Graph, ms: seq<Member<Value>>) {
    forall i :: 0 <= i < |ms| ==> Wellformed(g, ms[i].value)
  }

  lemma ItemsHead(g: Graph, vs: seq<Value>, seen: set<Id>)
    requires Closed(g) && WellformedItems(g, vs) && vs != []
    ensures Wellformed(g, vs[0]) && WellformedItems(g, vs[1..])
    ensures (var head := RedactValue(g, vs[0], seen);
             var rest := RedactValues(g, vs[1..], head.1);
             && RedactValues(g, vs, seen) == ([head.0] + rest.0, rest.1)
             && seen <= head.1 <= rest.1 && |g.Keys - head.1| <= |g.Keys - seen|)
  {
    hide RedactValue, Wellformed, Closed;
    SeenShrinks(g, seen, RedactValue(g, vs[0], seen).1);
  }

  lemma MembersHead(g: Graph, ms: seq<Member<Value>>, seen: set<Id>)
    requires Closed(g) && WellformedMembers(g, ms) && ms != []
    ensures Wellformed(g, ms[0].value) && WellformedMembers(g, ms[1..])
    ensures (var head := RedactProperty(g, ms[0], seen);
             var rest := RedactProperties(g, ms[1..], head.1);
             && RedactProperties(g, ms, seen) == ([head.0] + rest.0, rest.1)
             && seen <= head.1 <= rest.1 && |g.Keys - head.1| <= |g.Keys - seen|)
  {
    hide RedactProperty, Wellformed, Closed;
    SeenShrinks(g, seen, RedactProperty(g, ms[0], seen).1);
  }

  // ---------------------------------------------------------------- chains of references

  /** What `ref` leads to is an array or an object, not a date. */
  predicate Container(g: Graph, id: Id) {
    id in g && !g[id].DateNode?
  }

  predicate RefersTo(g: Graph, v: Value, id: Id) {
    v == Ref(id) && Container(g, id)
  }

  predicate PublicRef(g: Graph, m: Member<Value>, id: Id) {
    !SecretKey(m.key) && RefersTo(g, m.value, id)
  }

  /** The array or object `a` holds `b` outside its secret members. */
  ghost predicate Links(g: Graph, a: Id, b: Id) {
    a in g
    && match g[a]
       case ArrayNode(items) => exists i :: 0 <= i < |items| && RefersTo(g, items[i], b)
       case ObjectNode(ms) => exists i :: 0 <= i < |ms| && PublicRef(g, ms[i], b)
       case DateNode(_) => false
  }

  /** A chain of `n` references leads from `a` to `x`, through none of the nodes of `avoid`. */
  ghost predicate ReachesIn(g: Graph, a: Id, avoid: set<Id>, x: Id, n: nat)
    decreases n
  {
    a !in avoid && if n == 0 then a == x else exists b :: Links(g, a, b) && ReachesIn(g, b, avoid, x, n - 1)
  }

  ghost predicate Reaches(g: Graph, v: Value, avoid: set<Id>, x: Id) {
    v.Ref? && Container(g, v.id) && exists n: nat :: ReachesIn(g, v.id, avoid, x, n)
  }

  lemma {:induction false} ReachesInMore(g: Graph, a: Id, avoid: set<Id>, less: set<Id>, x: Id, n: nat)
    requires ReachesIn(g, a, avoid, x, n) && less <= avoid
    ensures ReachesIn(g, a, less, x, n) && x !in avoid
    decreases n
  {
    hide Links;
    if n > 0 {
      var b :| Links(g, a, b) && ReachesIn(g, b, avoid, x, n - 1);
      ReachesInMore(g, b, avoid, less, x, n - 1);
    }
  }

  lemma ReachesMore(g: Graph, v: Value, avoid: set<Id>, less: set<Id>, x: Id)
    requires Reaches(g, v, avoid, x) && less <= avoid
    ensures Reaches(g, v, less, x) && x !in avoid
  {
    hide ReachesIn;
    var n: nat :| ReachesIn(g, v.id, avoid, x, n);
    ReachesInMore(g, v.id, avoid, less, x, n);
  }

  lemma ReachesItself(g: Graph, id: Id, avoid: set<Id>)
    requires Container(g, id) && id !in avoid
    ensures Reaches(g, Ref(id), avoid, id)
  {
    assert ReachesIn(g, id, avoid, id, 0);
  }

  lemma ReachesThrough(g: Graph, id: Id, w: Value, avoid: set<Id>, x: Id)
    requires Container(g, id) && id !in avoid && w.Ref? && Links(g, id, w.id) && Reaches(g, w, avoid, x)
    ensures Reaches(g, Ref(id), avoid, x)
  {
    hide Links;
    var n: nat :| ReachesIn(g, w.id, avoid, x, n);
    assert ReachesIn(g, id, avoid, x, n + 1);
  }

  // ---------------------------------------------------------------- what a redaction meets

  lemma ArrayLinks(g: Graph, id: Id, i: nat, x: Id, avoid: set<Id>)
    requires id in g && g[id].ArrayNode? && i < |g[id].items| && Reaches(g, g[id].items[i], avoid, x)
    ensures g[id].items[i].Ref? && Links(g, id, g[id].items[i].id)
  {
    hide ReachesIn;
    assert RefersTo(g, g[id].items[i], g[id].items[i].id);
  }

  lemma ObjectLinks(g: Graph, id: Id, i: nat, x: Id, avoid: set<Id>)
    requires id in g && g[id].ObjectNode? && i < |g[id].members| && !SecretKey(g[id].members[i].key)
    requires Reaches(g, g[id].members[i].value, avoid, x)
    ensures g[id].members[i].value.Ref? && Links(g, id, g[id].members[i].value.id)
  {
    hide ReachesIn, SecretKey;
    assert PublicRef(g, g[id].members[i], g[id].members[i].value.id);
  }

  /** Whatever a redaction newly meets, a chain of references leads to. */
  lemma {:induction false} MetIsReached(g: Graph, v: Value, seen: set<Id>, x: Id)
    requires Closed(g) && Wellformed(g, v) && x in RedactValue(g, v, seen).1 && x !in seen
    ensures Reaches(g, v, seen, x)
    decreases |g.Keys - seen|, 0
  {
    hide Links, ReachesIn, Reaches;
    SeenShrinks(g, seen, seen + {v.id});
    ReachesItself(g, v.id, seen);
    if x != v.id {
      var i := 0;
      if g[v.id].ArrayNode? {
        i := ItemMet(g, g[v.id].items, seen + {v.id}, x);
        ArrayLinks(g, v.id, i, x, seen + {v.id});
        ReachesMore(g, g[v.id].items[i], seen + {v.id}, seen, x);
        ReachesThrough(g, v.id, g[v.id].items[i], seen, x);
      } else {
        i := MemberMet(g, g[v.id].members, seen + {v.id}, x);
        ObjectLinks(g, v.id, i, x, seen + {v.id});
        ReachesMore(g, g[v.id].members[i].value, seen + {v.id}, seen, x);
        ReachesThrough(g, v.id, g[v.id].members[i].value, seen, x);
      }
    }
  }

  lemma {:induction false} ItemMet(g: Graph, vs: seq<Value>, seen: set<Id>, x: Id) returns (i: nat)
    requires Closed(g) && (forall k :: 0 <= k < |vs| ==> Wellformed(g, vs[k]))
    requires x in RedactValues(g, vs, seen).1 && x !in seen
    ensures i < |vs| && Reaches(g, vs[i], seen, x)
    decreases |g.Keys - seen|, 1, |vs|
  {
    hide Reaches;
    var head := RedactValue(g, vs[0], seen);
    if x in head.1 {
      MetIsReached(g, vs[0], seen, x);
      i := 0;
    } else {
      SeenShrinks(g, seen, head.1);
      var k := ItemMet(g, vs[1..], head.1, x);
      ReachesMore(g, vs[1..][k], head.1, seen, x);
      i := k + 1;
    }
  }

  lemma {:induction false} MemberMet(g: Graph, ms: seq<Member<Value>>, seen: set<Id>, x: Id) returns (i: nat)
    requires Closed(g) && (forall k :: 0 <= k < |ms| ==> Wellformed(g, ms[k].value))
    requires x in RedactProperties(g, ms, seen).1 && x !in seen
    ensures i < |ms| && !SecretKey(ms[i].key) && Reaches(g, ms[i].value, seen, x)
    decreases |g.Keys - seen|, 1, |ms|
  {
    hide Reaches, SecretKey;
    var head := RedactProperty(g, ms[0], seen);
    if x in head.1 {
      MetIsReached(g, ms[0].value, seen, x);
      i := 0;
    } else {
      SeenShrinks(g, seen, head.1);
      var k := MemberMet(g, ms[1..], head.1, x);
      ReachesMore(g, ms[1..][k].value, head.1, seen, x);
      i := k + 1;
    }
  }

  /** Every reference out of the new nodes leads to a met node. */
  ghost predicate ClosedBut(g: Graph, met: set<Id>, seen: set<Id>) {
    forall a, b :: a in met && a !in seen && Links(g, a, b) ==> b in met
  }

  lemma ClosedOn(g: Graph, seen: set<Id>, mid: set<Id>, met: set<Id>)
    requires ClosedBut(g, mid, seen) && ClosedBut(g, met, mid) && mid <= met
    ensures ClosedBut(g, met, seen)
  {
    hide Links;
  }

  /** A redaction also meets whatever the nodes that it newly meets refer to. */
  lemma {:induction false} MetIsClosed(g: Graph, v: Value, seen: set<Id>)
    requires Closed(g) && Wellformed(g, v)
    ensures ClosedBut(g, RedactValue(g, v, seen).1, seen)
    ensures v.Ref? && Container(g, v.id) ==> v.id in RedactValue(g, v, seen).1
    decreases |g.Keys - seen|, 0
  {
    hide Links;
    if v.Ref? && v.id !in seen && Container(g, v.id) {
      SeenShrinks(g, seen, seen + {v.id});
      if g[v.id].ArrayNode? {
        ItemsClosed(g, g[v.id].items, seen + {v.id});
      } else {
        MembersClosed(g, g[v.id].members, seen + {v.id});
      }
      NodeClosed(g, v.id, seen, RedactValue(g, v, seen).1);
    }
  }

  lemma NodeClosed(g: Graph, id: Id, seen: set<Id>, met: set<Id>)
    requires Container(g, id) && ClosedBut(g, met, seen + {id})
    requires g[id].ArrayNode? ==> forall i, b :: 0 <= i < |g[id].items| && RefersTo(g, g[id].items[i], b) ==> b in met
    requires g[id].ObjectNode? ==>
               forall i, b :: 0 <= i < |g[id].members| && PublicRef(g, g[id].members[i], b) ==> b in met
    ensures ClosedBut(g, met, seen)
  {
    hide PublicRef, RefersTo;
    forall a, b | a in met && a !in seen && Links(g, a, b)
      ensures b in met
    {
      if a != id {
        assert a !in seen + {id};
      }
    }
  }

  lemma {:induction false} ItemsClosed(g: Graph, vs: seq<Value>, seen: set<Id>)
    requires Closed(g) && WellformedItems(g, vs)
    ensures ClosedBut(g, RedactValues(g, vs, seen).1, seen) && ItemsWithin(g, vs, RedactValues(g, vs, seen).1)
    decreases |g.Keys - seen|, 1, |vs|
  {
    var met := RedactValues(g, vs, seen).1;
    hide *;
    RedactNothing(g, seen);
    NothingNew(g, seen);
    if vs == [] {
      ItemsWithinSplit(g, vs, met, met);
    } else {
      ItemsHead(g, vs, seen);
      var head := RedactValue(g, vs[0], seen);
      MetIsClosed(g, vs[0], seen);
      ItemsClosed(g, vs[1..], head.1);
      ClosedOn(g, seen, head.1, met);
      ItemsWithinSplit(g, vs, head.1, met);
    }
  }

  /** Every reference out of the list leads to a met node. */
  ghost predicate ItemsWithin(g: Graph, vs: seq<Value>, met: set<Id>) {
    forall i, b :: 0 <= i < |vs| && RefersTo(g, vs[i], b) ==> b in met
  }

  lemma ItemsWithinSplit(g: Graph, vs: seq<Value>, head: set<Id>, met: set<Id>)
    requires vs != [] ==> (vs[0].Ref? && Container(g, vs[0].id) ==> vs[0].id in head) && ItemsWithin(g, vs[1..], met)
    requires head <= met
    ensures ItemsWithin(g, vs, met)
  {
    forall i, b | 0 <= i < |vs| && RefersTo(g, vs[i], b)
      ensures b in met
    {
      assert i > 0 ==> vs[1..][i - 1] == vs[i];
    }
  }

  ghost predicate MembersWithin(g: Graph, ms: seq<Member<Value>>, met: set<Id>) {
    forall i, b :: 0 <= i < |ms| && PublicRef(g, ms[i], b) ==> b in met
  }

  lemma MembersWithinSplit(g: Graph, ms: seq<Member<Value>>, head: set<Id>, met: set<Id>)
    requires ms != [] ==> (forall b :: PublicRef(g, ms[0], b) ==> b in head) && MembersWithin(g, ms[1..], met)
    requires head <= met
    ensures MembersWithin(g, ms, met)
  {
    hide PublicRef;
    forall i, b | 0 <= i < |ms| && PublicRef(g, ms[i], b)
      ensures b in met
    {
      assert i > 0 ==> ms[1..][i - 1] == ms[i];
    }
  }

  lemma PropertyClosed(g: Graph, m: Member<Value>, seen: set<Id>)
    requires Closed(g) && Wellformed(g, m.value)
    requires (var met := RedactValue(g, m.value, seen).1;
              ClosedBut(g, met, seen) && (m.value.Ref? && Container(g, m.value.id) ==> m.value.id in met))
    ensures ClosedBut(g, RedactProperty(g, m, seen).1, seen)
    ensures forall b :: PublicRef(g, m, b) ==> b in RedactProperty(g, m, seen).1
  {
    hide Links, SecretKey, RedactValue, Closed;
    PropertyIs(g, m, seen);
  }

  lemma {:induction false} MembersClosed(g: Graph, ms: seq<Member<Value>>, seen: set<Id>)
    requires Closed(g) && WellformedMembers(g, ms)
    ensures ClosedBut(g, RedactProperties(g, ms, seen).1, seen) && MembersWithin(g, ms, RedactProperties(g, ms, seen).1)
    decreases |g.Keys - seen|, 1, |ms|
  {
    var met := RedactProperties(g, ms, seen).1;
    hide *;
    RedactNothing(g, seen);
    NothingNew(g, seen);
    if ms == [] {
      MembersWithinSplit(g, ms, met, met);
    } else {
      MembersHead(g, ms, seen);
      var head := RedactProperty(g, ms[0], seen);
      MetIsClosed(g, ms[0].value, seen);
      PropertyClosed(g, ms[0], seen);
      MembersClosed(g, ms[1..], head.1);
      ClosedOn(g, seen, head.1, met);
      MembersWithinSplit(g, ms, head.1, met);
    }
  }

  lemma NothingNew(g: Graph, seen: set<Id>)
    ensures ClosedBut(g, seen, seen)
  {
  }

  lemma {:induction false} ChainIsMet(g: Graph, met: set<Id>, seen: set<Id>, a: Id, x: Id, n: nat)
    requires ClosedBut(g, met, seen) && a in met && ReachesIn(g, a, seen, x, n)
    ensures x in met && x !in seen
    decreases n
  {
    hide Links;
    if n > 0 {
      var b :| Links(g, a, b) && ReachesIn(g, b, seen, x, n - 1);
      ChainIsMet(g, met, seen, b, x, n - 1);
    }
  }

  /** The nodes that a redaction newly meets, and copies, are exactly those to which references lead past the old ones. */
  lemma MetIffReached(g: Graph, v: Value, seen: set<Id>, x: Id)
    requires Closed(g) && Wellformed(g, v)
    ensures x in RedactValue(g, v, seen).1 && x !in seen <==> Reaches(g, v, seen, x)
  {
    hide Links, ReachesIn, RedactValue, ClosedBut, Closed;
    if Reaches(g, v, seen, x) {
      MetIsClosed(g, v, seen);
      var n: nat :| ReachesIn(g, v.id, seen, x, n);
      ChainIsMet(g, RedactValue(g, v, seen).1, seen, v.id, x, n);
    }
    if x in RedactValue(g, v, seen).1 && x !in seen {
      MetIsReached(g, v, seen, x);
    }
  }

  lemma {:induction false} ChainEndsInContainer(g: Graph, a: Id, avoid: set<Id>, x: Id, n: nat)
    requires Container(g, a) && ReachesIn(g, a, avoid, x, n)
    ensures Container(g, x)
    decreases n
  {
    if n > 0 {
      var b :| Links(g, a, b) && ReachesIn(g, b, avoid, x, n - 1);
      ChainEndsInContainer(g, b, avoid, x, n - 1);
    }
  }

  lemma ReachedIsContainer(g: Graph, v: Value, avoid: set<Id>, x: Id)
    requires Reaches(g, v, avoid, x)
    ensures Container(g, x) && x in g && !g[x].DateNode?
  {
    hide Links, ReachesIn;
    var n: nat :| ReachesIn(g, v.id, avoid, x, n);
    ChainEndsInContainer(g, v.id, avoid, x, n);
  }

  lemma {:induction false} ChainPasses(g: Graph, a: Id, seen: set<Id>, met: set<Id>, x: Id, n: nat)
    requires seen <= met && ClosedBut(g, met, seen) && ReachesIn(g, a, seen, x, n) && x !in met
    ensures ReachesIn(g, a, met, x, n)
    decreases n
  {
    hide Links;
    if a in met {
      ChainIsMet(g, met, seen, a, x, n);
      assert false;
    }
    if n > 0 {
      var b :| Links(g, a, b) && ReachesIn(g, b, seen, x, n - 1);
      ChainPasses(g, b, seen, met, x, n - 1);
    }
  }

  /** Met nodes that refer only to met nodes hide nothing but themselves. */
  lemma ReachesPast(g: Graph, v: Value, seen: set<Id>, met: set<Id>, x: Id)
    requires seen <= met && ClosedBut(g, met, seen)
    ensures Reaches(g, v, met, x) <==> Reaches(g, v, seen, x) && x !in met
  {
    hide Links, ReachesIn, ClosedBut;
    if Reaches(g, v, met, x) {
      ReachesMore(g, v, met, seen, x);
    }
    if Reaches(g, v, seen, x) && x !in met {
      var n: nat :| ReachesIn(g, v.id, seen, x, n);
      ChainPasses(g, v.id, seen, met, x, n);
    }
  }

  // ---------------------------------------------------------------- what comes before a member

  /** The i-th member stands before the first one of this name. */
  predicate InFront<V>(ms: seq<Member<V>>, i: int, key: string) {
    0 <= i < |ms| && forall j :: 0 <= j <= i ==> ms[j].key != key
  }

  /** A public member in front of `key` leads to `x`. */
  ghost predicate MetInFront(g: Graph, ms: seq<Member<Value>>, avoid: set<Id>, key: string, x: Id) {
    exists i :: InFront(ms, i, key) && !SecretKey(ms[i].key) && Reaches(g, ms[i].value, avoid, x)
  }
}
