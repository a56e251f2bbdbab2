/**
 * redactSecrets: on object graphs that may share nodes or run in circles, on acyclic values whose
 * nodes carry an identity, and on plain trees; and how the three agree.
 */
module Redaction {
  import opened Json
  import opened Secrets

  // ---------------------------------------------------------------- trees

  /** Redaction of a value in which no object occurs twice. */
  function Redact(v: Json): (r: Json)
    ensures Scalar(v) ==> r == v
    ensures v.Arr? <==> r.Arr?
    ensures v.Obj? <==> r.Obj?
  {
    match v
    case Arr(items) => Arr(RedactItems(items))
    case Obj(ms) => Obj(RedactMembers(ms))
    case _ => v
  }

  function RedactItems(items: seq<Json>): (r: seq<Json>)
    ensures |r| == |items|
  {
    if items == [] then [] else [Redact(items[0])] + RedactItems(items[1..])
  }

  function RedactMembers(ms: seq<Member<Json>>): (r: seq<Member<Json>>)
    ensures |r| == |ms|
  {
    if ms == [] then []
    else [Member(ms[0].key, if SecretKey(ms[0].key) then Str(MASK) else Redact(ms[0].value))] + RedactMembers(ms[1..])
  }

  /** No secret-named member, at any depth, holds anything but the mask. */
  predicate Masked(v: Json) {
    match v
    case Arr(items) => MaskedItems(items)
    case Obj(ms) => MaskedMembers(ms)
    case _ => true
  }

  predicate MaskedItems(items: seq<Json>) {
    items == [] || (Masked(items[0]) && MaskedItems(items[1..]))
  }

  predicate MaskedMembers(ms: seq<Member<Json>>) {
    ms == []
    || ((if SecretKey(ms[0].key) then ms[0].value == Str(MASK) else Masked(ms[0].value)) && MaskedMembers(ms[1..]))
  }

  /** Redaction changes a tree exactly when the tree still shows a secret. */
  lemma {:induction false} RedactFixes(v: Json)
    ensures Redact(v) == v <==> Masked(v)
    decreases v, 0
  {
    match v
    case Arr(items) => RedactItemsFixes(items);
    case Obj(ms) => RedactMembersFixes(ms);
    case _ =>
  }

  lemma {:induction false} RedactItemsFixes(items: seq<Json>)
    ensures RedactItems(items) == items <==> MaskedItems(items)
    decreases items
  {
    if items != [] {
      RedactFixes(items[0]);
      RedactItemsFixes(items[1..]);
      var r := RedactItems(items);
      assert r == items <==> r[0] == items[0] && r[1..] == items[1..] by {
        assert items == [items[0]] + items[1..];
        assert r == [r[0]] + r[1..];
      }
    }
  }

  lemma {:induction false} RedactMembersFixes(ms: seq<Member<Json>>)
    ensures RedactMembers(ms) == ms <==> MaskedMembers(ms)
    decreases ms
  {
    if ms != [] {
      RedactFixes(ms[0].value);
      RedactMembersFixes(ms[1..]);
      var r := RedactMembers(ms);
      assert r == ms <==> r[0] == ms[0] && r[1..] == ms[1..] by {
        assert ms == [ms[0]] + ms[1..];
        assert r == [r[0]] + r[1..];
      }
    }
  }

  lemma {:induction false} RedactMasks(v: Json)
    ensures Masked(Redact(v))
    decreases v, 0
  {
    match v
    case Arr(items) => RedactItemsMasks(items);
    case Obj(ms) => RedactMembersMasks(ms);
    case _ =>
  }

  lemma {:induction false} RedactItemsMasks(items: seq<Json>)
    ensures MaskedItems(RedactItems(items))
    decreases items
  {
    if items != [] {
      RedactMasks(items[0]);
      RedactItemsMasks(items[1..]);
    }
  }

  lemma {:induction false} RedactMembersMasks(ms: seq<Member<Json>>)
    ensures MaskedMembers(RedactMembers(ms))
    decreases ms
  {
    if ms != [] {
      RedactMasks(ms[0].value);
      RedactMembersMasks(ms[1..]);
    }
  }

  lemma RedactIdempotent(v: Json)
    ensures Redact(Redact(v)) == Redact(v)
  {
    RedactMasks(v);
    RedactFixes(Redact(v));
  }

  lemma {:induction false} RedactFind(ms: seq<Member<Json>>, key: string)
    ensures Find(RedactMembers(ms), key)
         == match Find(ms, key)
            case None => None
            case Some(v) => Some(if SecretKey(key) then Str(MASK) else Redact(v))
  {
    if ms != [] {
      RedactFind(ms[1..], key);
    }
  }

  /** Reading a public member commutes with redaction. */
  lemma RedactGet(v: Json, key: string)
    requires !SecretKey(key)
    ensures Get(Redact(v), key) == Redact(Get(v, key))
  {
    RedactFind(Members(v), key);
  }

  // ---------------------------------------------------------------- graphs

  type Id = nat

  /** A JavaScript value: a primitive or a reference to a heap node. */
  datatype Value = Prim(j: Json) | Ref(id: Id)

  datatype Node =
    | ArrayNode(items: seq<Value>)
    | ObjectNode(members: seq<Member<Value>>)
    | DateNode(iso: string)

  type Graph = map<Id, Node>

  /** Every reference leads to a node and every primitive is one. */
  predicate Wellformed(g: Graph, v: Value) {
    if v.Ref? then v.id in g else Scalar(v.j)
  }

  ghost predicate Closed(g: Graph) {
    forall id :: id in g ==>
      match g[id]
      case ArrayNode(items) => forall i :: 0 <= i < |items| ==> Wellformed(g, items[i])
      case ObjectNode(ms) => forall i :: 0 <= i < |ms| ==> Wellformed(g, ms[i].value)
      case DateNode(_) => true
  }

  lemma SeenShrinks(g: Graph, seen: set<Id>, seen': set<Id>)
    requires seen <= seen'
    ensures |g.Keys - seen'| <= |g.Keys - seen|
    ensures (exists id :: id in g && id in seen' && id !in seen) ==> |g.Keys - seen'| < |g.Keys - seen|
  {
    var a, b := g.Keys - seen', g.Keys - seen;
    assert a <= b;
    SubsetSize(a, b);
  }

  lemma {:induction false} SubsetSize(a: set<Id>, b: set<Id>)
    requires a <= b
    ensures |a| <= |b| && (a != b ==> |a| < |b|)
  {
    var rest := b - a;
    assert b == a + rest;
    if a != b {
      assert rest != {};
    }
  }

  /** The result, and the nodes seen so far: one set for the whole call. */
  function RedactValue(g: Graph, v: Value, seen: set<Id>): (r: (Json, set<Id>))
    requires Closed(g) && Wellformed(g, v)
    ensures seen <= r.1 <= seen + g.Keys
    decreases |g.Keys - seen|, 0
  {
    if v.Prim? then (v.j, seen)
    else if v.id in seen then (Str(CIRCULAR), seen)
    else
      match g[v.id]
      case DateNode(iso) => (Str(iso), seen)
      case ArrayNode(items) =>
        SeenShrinks(g, seen, seen + {v.id});
        var r := RedactValues(g, items, seen + {v.id});
        (Arr(r.0), r.1)
      case ObjectNode(ms) =>
        SeenShrinks(g, seen, seen + {v.id});
        var r := RedactProperties(g, ms, seen + {v.id});
        (Obj(r.0), r.1)
  }

  function RedactValues(g: Graph, vs: seq<Value>, seen: set<Id>): (r: (seq<Json>, set<Id>))
    requires Closed(g) && forall i :: 0 <= i < |vs| ==> Wellformed(g, vs[i])
    ensures seen <= r.1 <= seen + g.Keys && |r.0| == |vs|
    decreases |g.Keys - seen|, 1, |vs|
  {
    if vs == [] then ([], seen)
    else
      var head := RedactValue(g, vs[0], seen);
      SeenShrinks(g, seen, head.1);
      var rest := RedactValues(g, vs[1..], head.1);
      ([head.0] + rest.0, rest.1)
  }

  function RedactProperty(g: Graph, m: Member<Value>, seen: set<Id>): (r: (Member<Json>, set<Id>))
    requires Closed(g) && Wellformed(g, m.value)
    ensures seen <= r.1 <= seen + g.Keys
    decreases |g.Keys - seen|, 1
  {
    if SecretKey(m.key) then (Member(m.key, Str(MASK)), seen)
    else var r := RedactValue(g, m.value, seen); (Member(m.key, r.0), r.1)
  }

  function RedactProperties(g: Graph, ms: seq<Member<Value>>, seen: set<Id>): (r: (seq<Member<Json>>, set<Id>))
    requires Closed(g) && forall i :: 0 <= i < |ms| ==> Wellformed(g, ms[i].value)
    ensures seen <= r.1 <= seen + g.Keys && |r.0| == |ms|
    decreases |g.Keys - seen|, 2, |ms|
  {
    if ms == [] then ([], seen)
    else
      var head := RedactProperty(g, ms[0], seen);
      SeenShrinks(g, seen, head.1);
      var rest := RedactProperties(g, ms[1..], head.1);
      ([head.0] + rest.0, rest.1)
  }

  /** The number of arrays and objects in a tree. */
  function Containers(v: Json): nat {
    match v
    case Arr(items) => 1 + ItemContainers(items)
    case Obj(ms) => 1 + MemberContainers(ms)
    case _ => 0
  }

  function ItemContainers(items: seq<Json>): nat {
    if items == [] then 0 else Containers(items[0]) + ItemContainers(items[1..])
  }

  function MemberContainers(ms: seq<Member<Json>>): nat {
    if ms == [] then 0 else Containers(ms[0].value) + MemberContainers(ms[1..])
  }

  /**
   * The copy of any finite graph, circular or not, is a finite masked tree, and it holds exactly one
   * container for every node that was seen for the first time: no node is copied twice.
   */
  lemma {:induction false} CopiesEachNodeOnce(g: Graph, v: Value, seen: set<Id>)
    requires Closed(g) && Wellformed(g, v)
    ensures Masked(RedactValue(g, v, seen).0)
    ensures Containers(RedactValue(g, v, seen).0) == |RedactValue(g, v, seen).1| - |seen|
    decreases |g.Keys - seen|, 0
  {
    if v.Ref? && v.id !in seen {
      SeenShrinks(g, seen, seen + {v.id});
      match g[v.id]
      case DateNode(_) =>
      case ArrayNode(items) => CopiesItemsOnce(g, items, seen + {v.id});
      case ObjectNode(ms) => CopiesMembersOnce(g, ms, seen + {v.id});
    }
  }

  lemma {:induction false} CopiesItemsOnce(g: Graph, vs: seq<Value>, seen: set<Id>)
    requires Closed(g) && forall i :: 0 <= i < |vs| ==> Wellformed(g, vs[i])
    ensures MaskedItems(RedactValues(g, vs, seen).0)
    ensures ItemContainers(RedactValues(g, vs, seen).0) == |RedactValues(g, vs, seen).1| - |seen|
    decreases |g.Keys - seen|, 1, |vs|
  {
    if vs != [] {
      var head := RedactValue(g, vs[0], seen);
      CopiesEachNodeOnce(g, vs[0], seen);
      SeenShrinks(g, seen, head.1);
      CopiesItemsOnce(g, vs[1..], head.1);
    }
  }

  lemma {:induction false} CopiesMembersOnce(g: Graph, ms: seq<Member<Value>>, seen: set<Id>)
    requires Closed(g) && forall i :: 0 <= i < |ms| ==> Wellformed(g, ms[i].value)
    ensures MaskedMembers(RedactProperties(g, ms, seen).0)
    ensures MemberContainers(RedactProperties(g, ms, seen).0) == |RedactProperties(g, ms, seen).1| - |seen|
    decreases |g.Keys - seen|, 1, |ms|
  {
    if ms != [] {
      var head := RedactProperty(g, ms[0], seen);
      if !SecretKey(ms[0].key) {
        CopiesEachNodeOnce(g, ms[0].value, seen);
      }
      SeenShrinks(g, seen, head.1);
      CopiesMembersOnce(g, ms[1..], head.1);
    }
  }

  /** Redacting any graph once is enough: the copy redacts to itself, and it is no larger than the heap. */
  lemma RedactionIsFinal(g: Graph, v: Value)
    requires Closed(g) && Wellformed(g, v)
    ensures Redact(RedactValue(g, v, {}).0) == RedactValue(g, v, {}).0
    ensures Containers(RedactValue(g, v, {}).0) <= |g|
  {
    CopiesEachNodeOnce(g, v, {});
    RedactFixes(RedactValue(g, v, {}).0);
    SubsetSize(RedactValue(g, v, {}).1, g.Keys);
  }

  /** The weak set that one top-level call threads through every nested call. */
  class SeenNodes {
    var ids: set<Id>

    constructor ()
      ensures ids == {}
    {
      ids := {};
    }
  }

  /** How many nodes are still to be met. */
  function Unmet(g: Graph, seen: set<Id>): nat {
    |g.Keys - seen|
  }

  lemma UnmetShrinks(g: Graph, seen: set<Id>, seen': set<Id>)
    requires seen <= seen'
    ensures Unmet(g, seen') <= Unmet(g, seen)
    ensures forall id :: id in g && id in seen' && id !in seen ==> Unmet(g, seen') < Unmet(g, seen)
  {
    SeenShrinks(g, seen, seen');
  }

  /** The recursion as the program runs it, adding to `seen` as it goes. */
  method RedactSecrets(g: Graph, v: Value, seen: SeenNodes) returns (copy: Json)
    requires Closed(g) && Wellformed(g, v)
    modifies seen
    ensures (copy, seen.ids) == RedactValue(g, v, old(seen.ids))
    decreases Unmet(g, seen.ids), 0
  {
    if v.Prim? {
      return v.j;
    }
    if v.id in seen.ids {
      return Str(CIRCULAR);
    }
    var node := g[v.id];
    if node.DateNode? {
      return Str(node.iso);
    }
    ghost var before := seen.ids;
    seen.ids := seen.ids + {v.id};
    UnmetShrinks(g, before, seen.ids);
    assert v.id in seen.ids && v.id !in before;
    hide Unmet;
    if node.ArrayNode? {
      var items := RedactArray(g, node.items, seen);
      copy := Arr(items);
    } else {
      var members := RedactObject(g, node.members, seen);
      copy := Obj(members);
    }
  }

  lemma RedactNothing(g: Graph, seen: set<Id>)
    requires Closed(g)
    ensures RedactValues(g, [], seen) == ([], seen) && RedactProperties(g, [], seen) == ([], seen)
  {
  }

  lemma PropertyIs(g: Graph, m: Member<Value>, seen: set<Id>)
    requires Closed(g) && Wellformed(g, m.value)
    ensures RedactProperty(g, m, seen)
         == if SecretKey(m.key) then (Member(m.key, Str(MASK)), seen)
            else (Member(m.key, RedactValue(g, m.value, seen).0), RedactValue(g, m.value, seen).1)
  {
    hide RedactValue, SecretKey, Closed, Wellformed;
  }

  lemma {:induction false} RedactValuesAppend(g: Graph, vs: seq<Value>, last: Value, seen: set<Id>)
    requires Closed(g) && (forall i :: 0 <= i < |vs| ==> Wellformed(g, vs[i])) && Wellformed(g, last)
    ensures RedactValues(g, vs + [last], seen).0
         == RedactValues(g, vs, seen).0 + [RedactValue(g, last, RedactValues(g, vs, seen).1).0]
    ensures RedactValues(g, vs + [last], seen).1 == RedactValue(g, last, RedactValues(g, vs, seen).1).1
    decreases |vs|
  {
    if vs == [] {
      assert vs + [last] == [last];
    } else {
      assert (vs + [last])[1..] == vs[1..] + [last];
      RedactValuesAppend(g, vs[1..], last, RedactValue(g, vs[0], seen).1);
    }
  }

  lemma RedactValuesNext(g: Graph, vs: seq<Value>, i: nat, seen: set<Id>)
    requires Closed(g) && (forall k :: 0 <= k < |vs| ==> Wellformed(g, vs[k])) && i < |vs|
    ensures var done, next := RedactValues(g, vs[..i], seen), RedactValues(g, vs[..i + 1], seen);
            var step := RedactValue(g, vs[i], done.1);
            next.0 == done.0 + [step.0] && next.1 == step.1 && Unmet(g, done.1) <= Unmet(g, seen)
  {
    hide *;
    RedactValuesAppend(g, vs[..i], vs[i], seen);
    assert vs[..i + 1] == vs[..i] + [vs[i]];
    UnmetShrinks(g, seen, RedactValues(g, vs[..i], seen).1);
  }

  method RedactArray(g: Graph, vs: seq<Value>, seen: SeenNodes) returns (copy: seq<Json>)
    requires Closed(g) && forall i :: 0 <= i < |vs| ==> Wellformed(g, vs[i])
    modifies seen
    ensures (copy, seen.ids) == RedactValues(g, vs, old(seen.ids))
    decreases Unmet(g, seen.ids), 1
  {
    hide *;
    RedactNothing(g, seen.ids);
    copy := [];
    var i := 0;
    ghost var start := seen.ids;
    while i < |vs|
      invariant 0 <= i <= |vs| && start <= seen.ids
      invariant copy == RedactValues(g, vs[..i], start).0
      invariant seen.ids == RedactValues(g, vs[..i], start).1
    {
      RedactValuesNext(g, vs, i, start);
      var item := RedactSecrets(g, vs[i], seen);
      copy := copy + [item];
      i := i + 1;
    }
    assert vs[..i] == vs;
  }

  lemma {:induction false} RedactPropertiesAppend(g: Graph, ms: seq<Member<Value>>, last: Member<Value>, seen: set<Id>)
    requires Closed(g) && (forall i :: 0 <= i < |ms| ==> Wellformed(g, ms[i].value)) && Wellformed(g, last.value)
    ensures RedactProperties(g, ms + [last], seen).0
         == RedactProperties(g, ms, seen).0 + [RedactProperty(g, last, RedactProperties(g, ms, seen).1).0]
    ensures RedactProperties(g, ms + [last], seen).1 == RedactProperty(g, last, RedactProperties(g, ms, seen).1).1
    decreases |ms|
  {
    if ms == [] {
      assert ms + [last] == [last];
    } else {
      assert (ms + [last])[1..] == ms[1..] + [last];
      RedactPropertiesAppend(g, ms[1..], last, RedactProperty(g, ms[0], seen).1);
    }
  }

  lemma RedactPropertiesNext(g: Graph, ms: seq<Member<Value>>, i: nat, seen: set<Id>)
    requires Closed(g) && (forall k :: 0 <= k < |ms| ==> Wellformed(g, ms[k].value)) && i < |ms|
    ensures var done, next := RedactProperties(g, ms[..i], seen), RedactProperties(g, ms[..i + 1], seen);
            var step := RedactProperty(g, ms[i], done.1);
            next.0 == done.0 + [step.0] && next.1 == step.1 && Unmet(g, done.1) <= Unmet(g, seen)
  {
    hide *;
    RedactPropertiesAppend(g, ms[..i], ms[i], seen);
    assert ms[..i + 1] == ms[..i] + [ms[i]];
    UnmetShrinks(g, seen, RedactProperties(g, ms[..i], seen).1);
  }

  method RedactObject(g: Graph, ms: seq<Member<Value>>, seen: SeenNodes) returns (copy: seq<Member<Json>>)
    requires Closed(g) && forall i :: 0 <= i < |ms| ==> Wellformed(g, ms[i].value)
    modifies seen
    ensures (copy, seen.ids) == RedactProperties(g, ms, old(seen.ids))
    decreases Unmet(g, seen.ids), 1
  {
    hide *;
    RedactNothing(g, seen.ids);
    copy := [];
    var i := 0;
    ghost var start := seen.ids;
    while i < |ms|
      invariant 0 <= i <= |ms| && start <= seen.ids
      invariant copy == RedactProperties(g, ms[..i], start).0
      invariant seen.ids == RedactProperties(g, ms[..i], start).1
    {
      RedactPropertiesNext(g, ms, i, start);
      PropertyIs(g, ms[i], seen.ids);
      var value := Str(MASK);
      if !SecretKey(ms[i].key) {
        value := RedactSecrets(g, ms[i].value, seen);
      }
      copy := copy + [Member(ms[i].key, value)];
      i := i + 1;
    }
    assert ms[..i] == ms;
  }

  // ---------------------------------------------------------------- acyclic values with node identity

  /** A value whose arrays and objects carry the identity of their heap node. */
  datatype Linked =
    | Leaf(j: Json)
    | DateLeaf(iso: string)
    | Items(id: Id, items: seq<Linked>)
    | Fields(id: Id, members: seq<Member<Linked>>)

  function RedactLinked(l: Linked, seen: set<Id>): (r: (Json, set<Id>))
    ensures seen <= r.1
  {
    match l
    case Leaf(j) => (j, seen)
    case DateLeaf(iso) => (Str(iso), seen)
    case Items(id, xs) =>
      if id in seen then (Str(CIRCULAR), seen)
      else var r := RedactLinkedItems(xs, seen + {id}); (Arr(r.0), r.1)
    case Fields(id, ms) =>
      if id in seen then (Str(CIRCULAR), seen)
      else var r := RedactLinkedMembers(ms, seen + {id}); (Obj(r.0), r.1)
  }

  function RedactLinkedItems(xs: seq<Linked>, seen: set<Id>): (r: (seq<Json>, set<Id>))
    ensures seen <= r.1 && |r.0| == |xs|
  {
    if xs == [] then ([], seen)
    else
      var head := RedactLinked(xs[0], seen);
      var rest := RedactLinkedItems(xs[1..], head.1);
      ([head.0] + rest.0, rest.1)
  }

  function RedactLinkedMembers(ms: seq<Member<Linked>>, seen: set<Id>): (r: (seq<Member<Json>>, set<Id>))
    ensures seen <= r.1 && |r.0| == |ms|
  {
    if ms == [] then ([], seen)
    else
      var head := if SecretKey(ms[0].key) then (Str(MASK), seen) else RedactLinked(ms[0].value, seen);
      var rest := RedactLinkedMembers(ms[1..], head.1);
      ([Member(ms[0].key, head.0)] + rest.0, rest.1)
  }

  /** `l` is what the heap holds at `v`. */
  predicate Represents(g: Graph, v: Value, l: Linked)
    decreases l, 0
  {
    match l
    case Leaf(j) => v == Prim(j)
    case DateLeaf(iso) => v.Ref? && v.id in g && g[v.id] == DateNode(iso)
    case Items(id, xs) => v == Ref(id) && id in g && g[id].ArrayNode? && RepresentsItems(g, g[id].items, xs)
    case Fields(id, ms) => v == Ref(id) && id in g && g[id].ObjectNode? && RepresentsMembers(g, g[id].members, ms)
  }

  predicate RepresentsItems(g: Graph, vs: seq<Value>, xs: seq<Linked>)
    decreases xs
  {
    |vs| == |xs| && (xs != [] ==> Represents(g, vs[0], xs[0]) && RepresentsItems(g, vs[1..], xs[1..]))
  }

  predicate RepresentsMembers(g: Graph, vs: seq<Member<Value>>, ms: seq<Member<Linked>>)
    decreases ms
  {
    |vs| == |ms|
    && (ms != [] ==>
          vs[0].key == ms[0].key && Represents(g, vs[0].value, ms[0].value) && RepresentsMembers(g, vs[1..], ms[1..]))
  }

  predicate DatesUnseen(g: Graph, seen: set<Id>) {
    forall id :: id in seen && id in g ==> !g[id].DateNode?
  }

  /** On the part of a heap that does not run in circles, the graph recursion is the structural one. */
  lemma {:induction false} GraphRefinesLinked(g: Graph, v: Value, l: Linked, seen: set<Id>)
    requires Closed(g) && Wellformed(g, v) && Represents(g, v, l) && DatesUnseen(g, seen)
    ensures RedactValue(g, v, seen) == RedactLinked(l, seen)
    ensures DatesUnseen(g, RedactLinked(l, seen).1)
    decreases l, 0
  {
    match l
    case Items(id, xs) => if id !in seen { GraphRefinesItems(g, g[id].items, xs, seen + {id}); }
    case Fields(id, ms) => if id !in seen { GraphRefinesMembers(g, g[id].members, ms, seen + {id}); }
    case _ =>
  }

  lemma {:induction false} GraphRefinesItems(g: Graph, vs: seq<Value>, xs: seq<Linked>, seen: set<Id>)
    requires Closed(g) && (forall i :: 0 <= i < |vs| ==> Wellformed(g, vs[i]))
    requires RepresentsItems(g, vs, xs) && DatesUnseen(g, seen)
    ensures RedactValues(g, vs, seen) == RedactLinkedItems(xs, seen)
    ensures DatesUnseen(g, RedactLinkedItems(xs, seen).1)
    decreases xs
  {
    if xs != [] {
      GraphRefinesLinked(g, vs[0], xs[0], seen);
      GraphRefinesItems(g, vs[1..], xs[1..], RedactLinked(xs[0], seen).1);
    }
  }

  lemma {:induction false} GraphRefinesMembers(g: Graph, vs: seq<Member<Value>>, ms: seq<Member<Linked>>, seen: set<Id>)
    requires Closed(g) && (forall i :: 0 <= i < |vs| ==> Wellformed(g, vs[i].value))
    requires RepresentsMembers(g, vs, ms) && DatesUnseen(g, seen)
    ensures RedactProperties(g, vs, seen) == RedactLinkedMembers(ms, seen)
    ensures DatesUnseen(g, RedactLinkedMembers(ms, seen).1)
    decreases ms
  {
    if ms != [] {
      var after := seen;
      if !SecretKey(ms[0].key) {
        GraphRefinesLinked(g, vs[0].value, ms[0].value, seen);
        after := RedactLinked(ms[0].value, seen).1;
      }
      GraphRefinesMembers(g, vs[1..], ms[1..], after);
    }
  }

  /** The tree that a value shows to JSON: identities dropped, dates as text. */
  function Erase(l: Linked): Json {
    match l
    case Leaf(j) => j
    case DateLeaf(iso) => Str(iso)
    case Items(_, xs) => Arr(EraseItems(xs))
    case Fields(_, ms) => Obj(EraseMembers(ms))
  }

  function EraseItems(xs: seq<Linked>): (r: seq<Json>)
    ensures |r| == |xs|
  {
    if xs == [] then [] else [Erase(xs[0])] + EraseItems(xs[1..])
  }

  function EraseMembers(ms: seq<Member<Linked>>): (r: seq<Member<Json>>)
    ensures |r| == |ms|
  {
    if ms == [] then [] else [Member(ms[0].key, Erase(ms[0].value))] + EraseMembers(ms[1..])
  }

  /** Leaves are primitives. */
  predicate Proper(l: Linked) {
    match l
    case Leaf(j) => Scalar(j)
    case DateLeaf(_) => true
    case Items(_, xs) => ProperItems(xs)
    case Fields(_, ms) => ProperMembers(ms)
  }

  predicate ProperItems(xs: seq<Linked>) {
    xs == [] || (Proper(xs[0]) && ProperItems(xs[1..]))
  }

  predicate ProperMembers(ms: seq<Member<Linked>>) {
    ms == [] || (Proper(ms[0].value) && ProperMembers(ms[1..]))
  }

  /** The nodes outside secret members, all of them. */
  function Nodes(l: Linked): set<Id> {
    match l
    case Items(id, xs) => {id} + ItemNodes(xs)
    case Fields(id, ms) => {id} + MemberNodes(ms)
    case _ => {}
  }

  function ItemNodes(xs: seq<Linked>): set<Id> {
    if xs == [] then {} else Nodes(xs[0]) + ItemNodes(xs[1..])
  }

  function MemberNodes(ms: seq<Member<Linked>>): set<Id> {
    if ms == [] then {}
    else (if SecretKey(ms[0].key) then {} else Nodes(ms[0].value)) + MemberNodes(ms[1..])
  }

  /** No node outside secret members occurs twice. */
  predicate AliasFree(l: Linked) {
    match l
    case Items(id, xs) => id !in ItemNodes(xs) && AliasFreeItems(xs)
    case Fields(id, ms) => id !in MemberNodes(ms) && AliasFreeMembers(ms)
    case _ => true
  }

  predicate AliasFreeItems(xs: seq<Linked>) {
    xs == [] || (AliasFree(xs[0]) && AliasFreeItems(xs[1..]) && Nodes(xs[0]) !! ItemNodes(xs[1..]))
  }

  predicate AliasFreeMembers(ms: seq<Member<Linked>>) {
    ms == []
    || (AliasFreeMembers(ms[1..])
        && (!SecretKey(ms[0].key) ==> AliasFree(ms[0].value) && Nodes(ms[0].value) !! MemberNodes(ms[1..])))
  }

  /**
   * Redaction is the redaction of the tree exactly for values of which no visible node was met before:
   * a node that is merely shared, not circular, is lost all the same.
   */
  lemma {:induction false} TreeShapedIffAliasFree(l: Linked, seen: set<Id>)
    requires Proper(l)
    ensures RedactLinked(l, seen).0 == Redact(Erase(l)) <==> AliasFree(l) && Nodes(l) !! seen
    ensures AliasFree(l) && Nodes(l) !! seen ==> RedactLinked(l, seen).1 == seen + Nodes(l)
    decreases l, 0
  {
    hide RedactItems, RedactMembers, EraseItems, EraseMembers, ItemNodes, MemberNodes, AliasFreeItems, AliasFreeMembers,
      RedactLinkedItems, RedactLinkedMembers, ProperItems, ProperMembers;
    match l
    case Items(id, xs) => if id !in seen { TreeShapedItems(xs, seen + {id}); }
    case Fields(id, ms) => if id !in seen { TreeShapedMembers(ms, seen + {id}); }
    case _ =>
  }

  lemma {:induction false} TreeShapedItems(xs: seq<Linked>, seen: set<Id>)
    requires ProperItems(xs)
    ensures RedactLinkedItems(xs, seen).0 == RedactItems(EraseItems(xs)) <==> AliasFreeItems(xs) && ItemNodes(xs) !! seen
    ensures AliasFreeItems(xs) && ItemNodes(xs) !! seen ==> RedactLinkedItems(xs, seen).1 == seen + ItemNodes(xs)
    decreases xs
  {
    if xs != [] {
      var head := RedactLinked(xs[0], seen);
      TreeShapedIffAliasFree(xs[0], seen);
      TreeShapedItems(xs[1..], head.1);
      var a, b := RedactLinkedItems(xs, seen).0, RedactItems(EraseItems(xs));
      assert a == b <==> a[0] == b[0] && a[1..] == b[1..] by {
        assert a == [a[0]] + a[1..] && b == [b[0]] + b[1..];
      }
    }
  }

  lemma {:induction false} TreeShapedMembers(ms: seq<Member<Linked>>, seen: set<Id>)
    requires ProperMembers(ms)
    ensures RedactLinkedMembers(ms, seen).0 == RedactMembers(EraseMembers(ms))
       <==> AliasFreeMembers(ms) && MemberNodes(ms) !! seen
    ensures AliasFreeMembers(ms) && MemberNodes(ms) !! seen
        ==> RedactLinkedMembers(ms, seen).1 == seen + MemberNodes(ms)
    decreases ms
  {
    hide SecretKey, Proper, Nodes, AliasFree, Erase;
    if ms != [] {
      var head := if SecretKey(ms[0].key) then (Str(MASK), seen) else RedactLinked(ms[0].value, seen);
      TreeShapedIffAliasFree(ms[0].value, seen);
      TreeShapedMembers(ms[1..], head.1);
      var a, b := RedactLinkedMembers(ms, seen).0, RedactMembers(EraseMembers(ms));
      assert a == b <==> a[0] == b[0] && a[1..] == b[1..] by {
        assert a == [a[0]] + a[1..] && b == [b[0]] + b[1..];
      }
    }
  }

  /** The nodes that redaction copies. */
  function Visited(l: Linked, seen: set<Id>): set<Id> {
    RedactLinked(l, seen).1 - seen
  }

  /** Having met more nodes before changes the result exactly when one of them would have been copied. */
  lemma {:induction false} MoreSeen(l: Linked, seen: set<Id>, more: set<Id>)
    requires Proper(l)
    ensures RedactLinked(l, seen + more).0 == RedactLinked(l, seen).0 <==> Visited(l, seen) !! more
    ensures Visited(l, seen) !! more ==> RedactLinked(l, seen + more).1 == RedactLinked(l, seen).1 + more
    decreases l, 0
  {
    match l
    case Items(id, xs) =>
      if id !in seen {
        assert seen + {id} + more == seen + more + {id};
        MoreSeenItems(xs, seen + {id}, more);
      }
    case Fields(id, ms) =>
      if id !in seen {
        assert seen + {id} + more == seen + more + {id};
        MoreSeenMembers(ms, seen + {id}, more);
      }
    case _ =>
  }

  lemma {:induction false} MoreSeenItems(xs: seq<Linked>, seen: set<Id>, more: set<Id>)
    requires ProperItems(xs)
    ensures RedactLinkedItems(xs, seen + more).0 == RedactLinkedItems(xs, seen).0
       <==> RedactLinkedItems(xs, seen).1 - seen !! more
    ensures RedactLinkedItems(xs, seen).1 - seen !! more
        ==> RedactLinkedItems(xs, seen + more).1 == RedactLinkedItems(xs, seen).1 + more
    decreases xs
  {
    if xs != [] {
      MoreSeen(xs[0], seen, more);
      MoreSeenItems(xs[1..], RedactLinked(xs[0], seen).1, more);
      var a, b := RedactLinkedItems(xs, seen + more).0, RedactLinkedItems(xs, seen).0;
      assert a == b <==> a[0] == b[0] && a[1..] == b[1..] by {
        assert a == [a[0]] + a[1..] && b == [b[0]] + b[1..];
      }
    }
  }

  lemma {:induction false} MoreSeenMembers(ms: seq<Member<Linked>>, seen: set<Id>, more: set<Id>)
    requires ProperMembers(ms)
    ensures RedactLinkedMembers(ms, seen + more).0 == RedactLinkedMembers(ms, seen).0
       <==> RedactLinkedMembers(ms, seen).1 - seen !! more
    ensures RedactLinkedMembers(ms, seen).1 - seen !! more
        ==> RedactLinkedMembers(ms, seen + more).1 == RedactLinkedMembers(ms, seen).1 + more
    decreases ms
  {
    if ms != [] {
      var after := seen;
      if !SecretKey(ms[0].key) {
        MoreSeen(ms[0].value, seen, more);
        after := RedactLinked(ms[0].value, seen).1;
      }
      MoreSeenMembers(ms[1..], after, more);
      var a, b := RedactLinkedMembers(ms, seen + more).0, RedactLinkedMembers(ms, seen).0;
      assert a == b <==> a[0] == b[0] && a[1..] == b[1..] by {
        assert a == [a[0]] + a[1..] && b == [b[0]] + b[1..];
      }
    }
  }
}
