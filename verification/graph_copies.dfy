/** When two redactions of one value that start from different met nodes make the same copy. */
module GraphCopies {
  import opened Json
  import opened Secrets
  import opened Canonical
  import opened Redaction
  import opened Reachability

  /** A heap as programs build it: references lead to nodes, names are unique, and dates have a text. */
  ghost predicate Heap(g: Graph) {
    && Closed(g)
    && forall id :: id in g ==>
         match g[id]
         case ObjectNode(ms) => UniqueKeys(ms)
         case DateNode(iso) => iso != ""
         case ArrayNode(_) => true
  }

  lemma HeapIsClosed(g: Graph)
    requires Heap(g)
    ensures Closed(g)
    ensures forall id :: id in g && g[id].ObjectNode? ==> UniqueKeys(g[id].members)
    ensures forall id :: id in g && g[id].DateNode? ==> g[id].iso != ""
  {
    hide Closed;
  }

  /** The nodes that a redaction newly meets. */
  function News(g: Graph, v: Value, seen: set<Id>): set<Id>
    requires Closed(g) && Wellformed(g, v)
  {
    RedactValue(g, v, seen).1 - seen
  }

  // ---------------------------------------------------------------- met nodes that do not matter

  lemma {:induction false} OthersIgnored(g: Graph, v: Value, seen: set<Id>, more: set<Id>)
    requires Closed(g) && Wellformed(g, v) && DatesUnseen(g, more)
    requires RedactValue(g, v, seen).1 - seen !! more
    ensures RedactValue(g, v, seen + more) == (RedactValue(g, v, seen).0, RedactValue(g, v, seen).1 + more)
    decreases |g.Keys - seen|, 0
  {
    if v.Ref? && v.id !in seen && Container(g, v.id) {
      SeenShrinks(g, seen, seen + {v.id});
      assert seen + {v.id} + more == seen + more + {v.id};
      if g[v.id].ArrayNode? {
        OtherItemsIgnored(g, g[v.id].items, seen + {v.id}, more);
      } else {
        OtherMembersIgnored(g, g[v.id].members, seen + {v.id}, more);
      }
    }
  }

  lemma {:induction false} OtherItemsIgnored(g: Graph, vs: seq<Value>, seen: set<Id>, more: set<Id>)
    requires Closed(g) && WellformedItems(g, vs) && DatesUnseen(g, more)
    requires RedactValues(g, vs, seen).1 - seen !! more
    ensures RedactValues(g, vs, seen + more) == (RedactValues(g, vs, seen).0, RedactValues(g, vs, seen).1 + more)
    decreases |g.Keys - seen|, 1, |vs|
  {
    if vs != [] {
      var head := RedactValue(g, vs[0], seen);
      SeenShrinks(g, seen, head.1);
      OthersIgnored(g, vs[0], seen, more);
      OtherItemsIgnored(g, vs[1..], head.1, more);
    }
  }

  lemma {:induction false} OtherMembersIgnored(g: Graph, ms: seq<Member<Value>>, seen: set<Id>, more: set<Id>)
    requires Closed(g) && WellformedMembers(g, ms) && DatesUnseen(g, more)
    requires RedactProperties(g, ms, seen).1 - seen !! more
    ensures RedactProperties(g, ms, seen + more) == (RedactProperties(g, ms, seen).0, RedactProperties(g, ms, seen).1 + more)
    decreases |g.Keys - seen|, 1, |ms|
  {
    hide SecretKey;
    if ms != [] {
      var head := RedactProperty(g, ms[0], seen);
      SeenShrinks(g, seen, head.1);
      if !SecretKey(ms[0].key) {
        OthersIgnored(g, ms[0].value, seen, more);
      }
      OtherMembersIgnored(g, ms[1..], head.1, more);
    }
  }

  // ---------------------------------------------------------------- one item or member at a time

  /** What redacting an array or object not met before is. */
  lemma ContainerIs(g: Graph, id: Id, seen: set<Id>)
    requires Heap(g) && Container(g, id) && id !in seen
    ensures |g.Keys - (seen + {id})| < |g.Keys - seen|
    ensures g[id].ArrayNode? ==>
              && WellformedItems(g, g[id].items)
              && RedactValue(g, Ref(id), seen)
                 == (Arr(RedactValues(g, g[id].items, seen + {id}).0), RedactValues(g, g[id].items, seen + {id}).1)
    ensures g[id].ObjectNode? ==>
              && WellformedMembers(g, g[id].members) && UniqueKeys(g[id].members)
              && RedactValue(g, Ref(id), seen)
                 == (Obj(RedactProperties(g, g[id].members, seen + {id}).0),
                     RedactProperties(g, g[id].members, seen + {id}).1)
    ensures g[id].ArrayNode? || g[id].ObjectNode?
  {
    hide RedactValues, RedactProperties;
    SeenShrinks(g, seen, seen + {id});
  }

  /** And what redacting anything else is. */
  lemma OtherIs(g: Graph, v: Value, seen: set<Id>)
    requires Closed(g) && Wellformed(g, v) && !(v.Ref? && Container(g, v.id) && v.id !in seen)
    ensures RedactValue(g, v, seen).1 == seen && Scalar(RedactValue(g, v, seen).0)
    ensures v.Ref? && v.id in seen ==> RedactValue(g, v, seen).0 == Str(CIRCULAR)
  {
  }

  // ---------------------------------------------------------------- copies without ambiguous objects

  lemma {:induction false} CopyIsTidy(g: Graph, v: Value, seen: set<Id>)
    requires Heap(g) && Wellformed(g, v)
    ensures Unambiguous(RedactValue(g, v, seen).0)
    decreases |g.Keys - seen|, 0
  {
    hide RedactValue, RedactValues, RedactProperties, Wellformed;
    if v.Ref? && v.id !in seen && Container(g, v.id) {
      ContainerIs(g, v.id, seen);
      if g[v.id].ArrayNode? {
        ItemCopiesTidy(g, g[v.id].items, seen + {v.id});
      } else {
        MemberCopiesTidy(g, g[v.id].members, seen + {v.id});
        CopyKeepsNames(g, g[v.id].members, seen + {v.id});
      }
    } else {
      OtherIs(g, v, seen);
    }
  }

  lemma {:induction false} ItemCopiesTidy(g: Graph, vs: seq<Value>, seen: set<Id>)
    requires Heap(g) && WellformedItems(g, vs)
    ensures forall i :: 0 <= i < |vs| ==> Unambiguous(RedactValues(g, vs, seen).0[i])
    decreases |g.Keys - seen|, 1, |vs|
  {
    if vs != [] {
      hide *;
      HeapIsClosed(g);
      ItemsHead(g, vs, seen);
      CopyIsTidy(g, vs[0], seen);
      ItemCopiesTidy(g, vs[1..], RedactValue(g, vs[0], seen).1);
    }
  }

  lemma {:induction false} MemberCopiesTidy(g: Graph, ms: seq<Member<Value>>, seen: set<Id>)
    requires Heap(g) && WellformedMembers(g, ms)
    ensures forall i :: 0 <= i < |ms| ==> Unambiguous(RedactProperties(g, ms, seen).0[i].value)
    decreases |g.Keys - seen|, 1, |ms|
  {
    if ms != [] {
      hide *;
      HeapIsClosed(g);
      MembersHead(g, ms, seen);
      PropertyIs(g, ms[0], seen);
      MaskIsTidy();
      CopyIsTidy(g, ms[0].value, seen);
      MemberCopiesTidy(g, ms[1..], RedactProperty(g, ms[0], seen).1);
    }
  }

  lemma MaskIsTidy()
    ensures Unambiguous(Str(MASK))
  {
  }

  lemma {:induction false} CopyKeepsNames(g: Graph, ms: seq<Member<Value>>, seen: set<Id>)
    requires Closed(g) && WellformedMembers(g, ms)
    ensures forall i :: 0 <= i < |ms| ==> RedactProperties(g, ms, seen).0[i].key == ms[i].key
    decreases |ms|
  {
    if ms != [] {
      hide *;
      MembersHead(g, ms, seen);
      PropertyIs(g, ms[0], seen);
      CopyKeepsNames(g, ms[1..], RedactProperty(g, ms[0], seen).1);
    }
  }

  /** Dates are never among the nodes met. */
  lemma {:induction false} DatesStayUnseen(g: Graph, v: Value, seen: set<Id>)
    requires Closed(g) && Wellformed(g, v) && DatesUnseen(g, seen)
    ensures DatesUnseen(g, RedactValue(g, v, seen).1)
  {
    hide *;
    forall id | id in RedactValue(g, v, seen).1 && id in g
      ensures !g[id].DateNode?
    {
      if id in seen {
        DatesUnseenIs(g, seen);
      } else {
        MetIffReached(g, v, seen, id);
        ReachedIsContainer(g, v, seen, id);
      }
    }
    DatesUnseenIs(g, RedactValue(g, v, seen).1);
  }

  lemma DatesUnseenIs(g: Graph, seen: set<Id>)
    ensures DatesUnseen(g, seen) <==> forall id :: id in seen && id in g ==> !g[id].DateNode?
  {
  }

  // ---------------------------------------------------------------- equal copies

  lemma {:induction false} SameCopyMeetsSame(g: Graph, v: Value, s: set<Id>, t: set<Id>)
    requires Heap(g) && Wellformed(g, v) && DatesUnseen(g, s) && DatesUnseen(g, t)
    requires SameUpToOrder(RedactValue(g, v, s).0, RedactValue(g, v, t).0)
    ensures RedactValue(g, v, s).1 - s == RedactValue(g, v, t).1 - t
    decreases |g.Keys - s|, 0
  {
    hide RedactValue, RedactValues, RedactProperties, Closed;
    HeapIsClosed(g);
    if v.Ref? && v.id !in s && v.id !in t && Container(g, v.id) {
      ContainerIs(g, v.id, s);
      ContainerIs(g, v.id, t);
      if g[v.id].ArrayNode? {
        SameItemsMeetSame(g, g[v.id].items, s + {v.id}, t + {v.id});
      } else {
        SameMembersMeetSame(g, g[v.id].members, s + {v.id}, t + {v.id});
      }
      NewsWith(v.id, RedactValue(g, v, s).1, RedactValue(g, v, t).1, s, t);
    } else if v.Ref? && Container(g, v.id) && v.id !in s {
      OtherIs(g, v, t);
      ContainerIs(g, v.id, s);
    } else if v.Ref? && Container(g, v.id) && v.id !in t {
      OtherIs(g, v, s);
      ContainerIs(g, v.id, t);
    } else {
      OtherIs(g, v, s);
      OtherIs(g, v, t);
    }
  }

  lemma NewsWith(id: Id, a: set<Id>, b: set<Id>, s: set<Id>, t: set<Id>)
    requires a - (s + {id}) == b - (t + {id}) && id in a && id in b && id !in s && id !in t
    ensures a - s == b - t
  {
    assert a - s == (a - (s + {id})) + {id};
    assert b - t == (b - (t + {id})) + {id};
  }

  /** New nodes of a head and of what follows. */
  lemma NewsJoin(a: set<Id>, b: set<Id>, a': set<Id>, b': set<Id>, s: set<Id>, t: set<Id>)
    requires s <= a <= a' && t <= b <= b' && a - s == b - t && a' - a == b' - b
    ensures a' - s == b' - t
  {
    assert a' - s == (a - s) + (a' - a);
    assert b' - t == (b - t) + (b' - b);
  }

  lemma {:induction false} SameItemsMeetSame(g: Graph, vs: seq<Value>, s: set<Id>, t: set<Id>)
    requires Heap(g) && WellformedItems(g, vs) && DatesUnseen(g, s) && DatesUnseen(g, t)
    requires SameUpToOrder(Arr(RedactValues(g, vs, s).0), Arr(RedactValues(g, vs, t).0))
    ensures RedactValues(g, vs, s).1 - s == RedactValues(g, vs, t).1 - t
    decreases |g.Keys - s|, 1, |vs|
  {
    if vs != [] {
      hide *;
      HeapIsClosed(g);
      var a, b := RedactValue(g, vs[0], s).1, RedactValue(g, vs[0], t).1;
      ItemsHead(g, vs, s);
      ItemsHead(g, vs, t);
      SameItemsSplit(RedactValues(g, vs, s).0, RedactValues(g, vs, t).0);
      SameCopyMeetsSame(g, vs[0], s, t);
      DatesStayUnseen(g, vs[0], s);
      DatesStayUnseen(g, vs[0], t);
      SameItemsMeetSame(g, vs[1..], a, b);
      NewsJoin(a, b, RedactValues(g, vs, s).1, RedactValues(g, vs, t).1, s, t);
    }
  }

  lemma PropertyMeets(g: Graph, m: Member<Value>, s: set<Id>, t: set<Id>)
    requires Heap(g) && Wellformed(g, m.value) && DatesUnseen(g, s) && DatesUnseen(g, t)
    requires !SecretKey(m.key) ==> RedactValue(g, m.value, s).1 - s == RedactValue(g, m.value, t).1 - t
    ensures RedactProperty(g, m, s).1 - s == RedactProperty(g, m, t).1 - t
    ensures DatesUnseen(g, RedactProperty(g, m, s).1) && DatesUnseen(g, RedactProperty(g, m, t).1)
  {
    hide *;
    HeapIsClosed(g);
    PropertyIs(g, m, s);
    PropertyIs(g, m, t);
    DatesStayUnseen(g, m.value, s);
    DatesStayUnseen(g, m.value, t);
  }

  lemma {:induction false} SameMembersMeetSame(g: Graph, ms: seq<Member<Value>>, s: set<Id>, t: set<Id>)
    requires Heap(g) && WellformedMembers(g, ms) && UniqueKeys(ms) && DatesUnseen(g, s) && DatesUnseen(g, t)
    requires SameUpToOrder(Obj(RedactProperties(g, ms, s).0), Obj(RedactProperties(g, ms, t).0))
    ensures RedactProperties(g, ms, s).1 - s == RedactProperties(g, ms, t).1 - t
    decreases |g.Keys - s|, 1, |ms|
  {
    if ms != [] {
      hide *;
      HeapIsClosed(g);
      var a, b := RedactProperty(g, ms[0], s).1, RedactProperty(g, ms[0], t).1;
      MembersHead(g, ms, s);
      MembersHead(g, ms, t);
      PropertyIs(g, ms[0], s);
      PropertyIs(g, ms[0], t);
      NamesUnique(g, ms, s);
      CopyKeepsNames(g, ms, t);
      SameMembersSplit(RedactProperties(g, ms, s).0, RedactProperties(g, ms, t).0);
      if !SecretKey(ms[0].key) {
        SameCopyMeetsSame(g, ms[0].value, s, t);
      }
      PropertyMeets(g, ms[0], s, t);
      SameMembersMeetSame(g, ms[1..], a, b);
      NewsJoin(a, b, RedactProperties(g, ms, s).1, RedactProperties(g, ms, t).1, s, t);
    }
  }

  lemma NamesUnique(g: Graph, ms: seq<Member<Value>>, s: set<Id>)
    requires Closed(g) && WellformedMembers(g, ms) && UniqueKeys(ms)
    ensures UniqueKeys(RedactProperties(g, ms, s).0) && (ms != [] ==> UniqueKeys(ms[1..]))
    ensures forall i :: 0 <= i < |ms| ==> RedactProperties(g, ms, s).0[i].key == ms[i].key
  {
    hide RedactProperties;
    CopyKeepsNames(g, ms, s);
  }

  lemma SameItemsSplit(a: seq<Json>, b: seq<Json>)
    requires a != [] && |a| == |b| && SameUpToOrder(Arr(a), Arr(b))
    ensures SameUpToOrder(a[0], b[0]) && SameUpToOrder(Arr(a[1..]), Arr(b[1..]))
  {
  }

  lemma SameMembersSplit(a: seq<Member<Json>>, b: seq<Member<Json>>)
    requires a != [] && |a| == |b| && UniqueKeys(a) && (forall i :: 0 <= i < |a| ==> a[i].key == b[i].key)
    requires SameUpToOrder(Obj(a), Obj(b))
    ensures SameUpToOrder(a[0].value, b[0].value) && SameUpToOrder(Obj(a[1..]), Obj(b[1..]))
  {
    hide Find;
    assert UniqueKeys(b);
    FindAt(b, 0);
    forall i | 0 <= i < |a[1..]|
      ensures Find(b[1..], a[1..][i].key).Some? && SameUpToOrder(a[1..][i].value, Find(b[1..], a[1..][i].key).value)
    {
      assert a[1..][i] == a[i + 1];
      FindTail(b, a[i + 1].key);
    }
  }

  lemma FindTail(ms: seq<Member<Json>>, key: string)
    requires ms != [] && ms[0].key != key
    ensures Find(ms, key) == Find(ms[1..], key)
  {
  }

  /** Two redactions of one value make the same copy, members in any order, exactly when they newly meet the same nodes. */
  lemma SameCopyIff(g: Graph, v: Value, s: set<Id>, t: set<Id>)
    requires Heap(g) && Wellformed(g, v) && DatesUnseen(g, s) && DatesUnseen(g, t)
    ensures SameUpToOrder(RedactValue(g, v, s).0, RedactValue(g, v, t).0) <==> News(g, v, s) == News(g, v, t)
    ensures News(g, v, s) == News(g, v, t) ==> RedactValue(g, v, s).0 == RedactValue(g, v, t).0
  {
    hide RedactValue, SameUpToOrder, DatesUnseen, Closed;
    CopyIsTidy(g, v, s);
    if News(g, v, s) == News(g, v, t) {
      OthersIgnored(g, v, s, t);
      OthersIgnored(g, v, t, s);
      assert s + t == t + s;
      SameAsItself(RedactValue(g, v, s).0);
    }
    if SameUpToOrder(RedactValue(g, v, s).0, RedactValue(g, v, t).0) {
      SameCopyMeetsSame(g, v, s, t);
    }
  }

  lemma SameAsItself(v: Json)
    requires Unambiguous(v)
    ensures SameUpToOrder(v, v)
  {
    CanonEqualIffSame(v, v);
  }
}
