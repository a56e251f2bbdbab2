/** A heap for every plain tree, with one node for each of its arrays and objects. */
module Placement {
  import opened Json
  import opened Secrets
  import opened Canonical
  import opened Redaction
  import opened Reachability
  import opened GraphCopies
  import opened ReviewOutcome
  import opened ReviewLog
  import opened ReviewRequest
  import opened ReviewTree

  /** The value of a tree whose nodes are numbered from `n` on, an object before its members. */
  function Placed(v: Json, n: Id): Value {
    if Scalar(v) then Prim(v) else Ref(n)
  }

  function PlacedItems(items: seq<Json>, n: Id): (r: seq<Value>)
    ensures |r| == |items|
  {
    if items == [] then [] else [Placed(items[0], n)] + PlacedItems(items[1..], n + Containers(items[0]))
  }

  function PlacedMembers(ms: seq<Member<Json>>, n: Id): (r: seq<Member<Value>>)
    ensures |r| == |ms| && forall i :: 0 <= i < |ms| ==> r[i].key == ms[i].key
  {
    if ms == [] then []
    else [Member(ms[0].key, Placed(ms[0].value, n))] + PlacedMembers(ms[1..], n + Containers(ms[0].value))
  }

  function HeapOf(v: Json, n: Id): Graph {
    match v
    case Arr(items) => ItemsHeap(items, n + 1)[n := ArrayNode(PlacedItems(items, n + 1))]
    case Obj(ms) => MembersHeap(ms, n + 1)[n := ObjectNode(PlacedMembers(ms, n + 1))]
    case _ => map[]
  }

  function ItemsHeap(items: seq<Json>, n: Id): Graph {
    if items == [] then map[] else HeapOf(items[0], n) + ItemsHeap(items[1..], n + Containers(items[0]))
  }

  function MembersHeap(ms: seq<Member<Json>>, n: Id): Graph {
    if ms == [] then map[] else HeapOf(ms[0].value, n) + MembersHeap(ms[1..], n + Containers(ms[0].value))
  }

  // ---------------------------------------------------------------- numbers

  lemma {:induction false} NumbersOf(v: Json, n: Id)
    ensures forall id :: id in HeapOf(v, n) ==> n <= id < n + Containers(v)
    ensures !Scalar(v) ==> n in HeapOf(v, n)
    decreases v, 0
  {
    match v
    case Arr(items) => ItemNumbers(items, n + 1);
    case Obj(ms) => MemberNumbers(ms, n + 1);
    case _ =>
  }

  lemma {:induction false} ItemNumbers(items: seq<Json>, n: Id)
    ensures forall id :: id in ItemsHeap(items, n) ==> n <= id < n + ItemContainers(items)
    decreases items
  {
    if items != [] {
      NumbersOf(items[0], n);
      ItemNumbers(items[1..], n + Containers(items[0]));
    }
  }

  lemma {:induction false} MemberNumbers(ms: seq<Member<Json>>, n: Id)
    ensures forall id :: id in MembersHeap(ms, n) ==> n <= id < n + MemberContainers(ms)
    decreases ms
  {
    if ms != [] {
      NumbersOf(ms[0].value, n);
      MemberNumbers(ms[1..], n + Containers(ms[0].value));
    }
  }

  /** The heap `g` holds the nodes of `h`. */
  ghost predicate Within(h: Graph, g: Graph) {
    forall id :: id in h ==> id in g && g[id] == h[id]
  }

  lemma WithinNode(v: Json, n: Id, g: Graph)
    requires Within(HeapOf(v, n), g) && !Scalar(v)
    ensures n in g
    ensures v.Arr? ==> g[n] == ArrayNode(PlacedItems(v.items, n + 1)) && Within(ItemsHeap(v.items, n + 1), g)
    ensures v.Obj? ==> g[n] == ObjectNode(PlacedMembers(v.members, n + 1)) && Within(MembersHeap(v.members, n + 1), g)
  {
    hide PlacedItems, PlacedMembers, ItemsHeap, MembersHeap;
    if v.Arr? {
      ItemNumbers(v.items, n + 1);
    } else {
      MemberNumbers(v.members, n + 1);
    }
  }

  lemma WithinItems(items: seq<Json>, n: Id, g: Graph)
    requires Within(ItemsHeap(items, n), g) && items != []
    ensures Within(HeapOf(items[0], n), g) && Within(ItemsHeap(items[1..], n + Containers(items[0])), g)
  {
    hide HeapOf;
    NumbersOf(items[0], n);
    ItemNumbers(items[1..], n + Containers(items[0]));
  }

  lemma WithinMembers(ms: seq<Member<Json>>, n: Id, g: Graph)
    requires Within(MembersHeap(ms, n), g) && ms != []
    ensures Within(HeapOf(ms[0].value, n), g) && Within(MembersHeap(ms[1..], n + Containers(ms[0].value)), g)
  {
    hide HeapOf;
    NumbersOf(ms[0].value, n);
    MemberNumbers(ms[1..], n + Containers(ms[0].value));
  }

  // ---------------------------------------------------------------- the tree with node identity

  function Numbered(v: Json, n: Id): Linked {
    match v
    case Arr(items) => Items(n, NumberedItems(items, n + 1))
    case Obj(ms) => Fields(n, NumberedMembers(ms, n + 1))
    case _ => Leaf(v)
  }

  function NumberedItems(items: seq<Json>, n: Id): (r: seq<Linked>)
    ensures |r| == |items|
  {
    if items == [] then [] else [Numbered(items[0], n)] + NumberedItems(items[1..], n + Containers(items[0]))
  }

  function NumberedMembers(ms: seq<Member<Json>>, n: Id): (r: seq<Member<Linked>>)
    ensures |r| == |ms|
  {
    if ms == [] then []
    else [Member(ms[0].key, Numbered(ms[0].value, n))] + NumberedMembers(ms[1..], n + Containers(ms[0].value))
  }

  lemma {:induction false} HeapShows(v: Json, n: Id, g: Graph)
    requires Within(HeapOf(v, n), g)
    ensures Represents(g, Placed(v, n), Numbered(v, n)) && Erase(Numbered(v, n)) == v
    decreases v, 0
  {
    hide Within, HeapOf;
    if !Scalar(v) {
      WithinNode(v, n, g);
    }
    match v
    case Arr(items) => HeapShowsItems(items, n + 1, g);
    case Obj(ms) => HeapShowsMembers(ms, n + 1, g);
    case _ =>
  }

  lemma {:induction false} HeapShowsItems(items: seq<Json>, n: Id, g: Graph)
    requires Within(ItemsHeap(items, n), g)
    ensures RepresentsItems(g, PlacedItems(items, n), NumberedItems(items, n)) && EraseItems(NumberedItems(items, n)) == items
    decreases items
  {
    hide Within, ItemsHeap;
    if items != [] {
      WithinItems(items, n, g);
      HeapShows(items[0], n, g);
      HeapShowsItems(items[1..], n + Containers(items[0]), g);
    }
  }

  lemma {:induction false} HeapShowsMembers(ms: seq<Member<Json>>, n: Id, g: Graph)
    requires Within(MembersHeap(ms, n), g)
    ensures RepresentsMembers(g, PlacedMembers(ms, n), NumberedMembers(ms, n))
    ensures EraseMembers(NumberedMembers(ms, n)) == ms
    decreases ms
  {
    hide Within, MembersHeap;
    if ms != [] {
      WithinMembers(ms, n, g);
      HeapShows(ms[0].value, n, g);
      HeapShowsMembers(ms[1..], n + Containers(ms[0].value), g);
    }
  }

  lemma {:induction false} NumberedOnce(v: Json, n: Id)
    ensures AliasFree(Numbered(v, n)) && forall id :: id in Nodes(Numbered(v, n)) ==> n <= id < n + Containers(v)
    decreases v, 0
  {
    match v
    case Arr(items) => ItemsNumberedOnce(items, n + 1);
    case Obj(ms) => MembersNumberedOnce(ms, n + 1);
    case _ =>
  }

  lemma {:induction false} ItemsNumberedOnce(items: seq<Json>, n: Id)
    ensures AliasFreeItems(NumberedItems(items, n))
    ensures forall id :: id in ItemNodes(NumberedItems(items, n)) ==> n <= id < n + ItemContainers(items)
    decreases items
  {
    if items != [] {
      NumberedOnce(items[0], n);
      ItemsNumberedOnce(items[1..], n + Containers(items[0]));
    }
  }

  lemma {:induction false} MembersNumberedOnce(ms: seq<Member<Json>>, n: Id)
    ensures AliasFreeMembers(NumberedMembers(ms, n))
    ensures forall id :: id in MemberNodes(NumberedMembers(ms, n)) ==> n <= id < n + MemberContainers(ms)
    decreases ms
  {
    hide SecretKey;
    if ms != [] {
      NumberedOnce(ms[0].value, n);
      MembersNumberedOnce(ms[1..], n + Containers(ms[0].value));
    }
  }

  // ---------------------------------------------------------------- a heap as programs build it

  ghost predicate Fits(node: Node, g: Graph) {
    match node
    case ArrayNode(items) => WellformedItems(g, items)
    case ObjectNode(ms) => WellformedMembers(g, ms) && UniqueKeys(ms)
    case DateNode(iso) => iso != ""
  }

  ghost predicate AllFit(h: Graph, g: Graph) {
    forall id :: id in h ==> Fits(h[id], g)
  }

  lemma AllFitIsHeap(g: Graph)
    requires AllFit(g, g)
    ensures Heap(g) && Closed(g)
  {
    hide Wellformed, UniqueKeys;
  }

  lemma PlacedFits(v: Json, n: Id, g: Graph)
    requires Within(HeapOf(v, n), g)
    ensures Wellformed(g, Placed(v, n))
  {
    hide HeapOf;
    NumbersOf(v, n);
  }

  lemma {:induction false} ItemsFit(items: seq<Json>, n: Id, g: Graph)
    requires Within(ItemsHeap(items, n), g) && forall i :: 0 <= i < |items| ==> Unambiguous(items[i])
    ensures WellformedItems(g, PlacedItems(items, n)) && AllFit(ItemsHeap(items, n), g)
    decreases items
  {
    hide Within, HeapOf, Placed, Wellformed, Fits, Unambiguous;
    if items != [] {
      WithinItems(items, n, g);
      PlacedFits(items[0], n, g);
      TreeFits(items[0], n, g);
      ItemsFit(items[1..], n + Containers(items[0]), g);
    }
  }

  lemma {:induction false} MembersFit(ms: seq<Member<Json>>, n: Id, g: Graph)
    requires Within(MembersHeap(ms, n), g) && forall i :: 0 <= i < |ms| ==> Unambiguous(ms[i].value)
    ensures WellformedMembers(g, PlacedMembers(ms, n)) && AllFit(MembersHeap(ms, n), g)
    decreases ms
  {
    hide Within, HeapOf, Placed, Wellformed, Fits, Unambiguous;
    if ms != [] {
      WithinMembers(ms, n, g);
      PlacedFits(ms[0].value, n, g);
      TreeFits(ms[0].value, n, g);
      MembersFit(ms[1..], n + Containers(ms[0].value), g);
    }
  }

  lemma {:induction false} TreeFits(v: Json, n: Id, g: Graph)
    requires Within(HeapOf(v, n), g) && Unambiguous(v)
    ensures AllFit(HeapOf(v, n), g)
    decreases v, 0
  {
    hide Within, ItemsHeap, MembersHeap, PlacedItems, PlacedMembers, WellformedItems, WellformedMembers;
    if !Scalar(v) {
      WithinNode(v, n, g);
    }
    match v
    case Arr(items) => ItemsFit(items, n + 1, g);
    case Obj(ms) => MembersFit(ms, n + 1, g);
    case _ =>
  }

  lemma TreeHeap(v: Json)
    requires Unambiguous(v)
    ensures (var g := HeapOf(v, 0); Heap(g) && Closed(g) && Within(g, g) && Wellformed(g, Placed(v, 0)))
  {
    hide HeapOf, Unambiguous, Fits, AllFit, Wellformed, Heap, Closed;
    TreeFits(v, 0, HeapOf(v, 0));
    AllFitIsHeap(HeapOf(v, 0));
    PlacedFits(v, 0, HeapOf(v, 0));
  }

  // ---------------------------------------------------------------- where a member is placed

  lemma {:induction false} MemberPlaced(ms: seq<Member<Json>>, n: Id, i: nat, g: Graph)
    requires i < |ms| && Within(MembersHeap(ms, n), g)
    ensures (var k := n + MemberContainers(ms[..i]);
             PlacedMembers(ms, n)[i] == Member(ms[i].key, Placed(ms[i].value, k)) && Within(HeapOf(ms[i].value, k), g))
    decreases i
  {
    hide *;
    WithinMembers(ms, n, g);
    PlacedHead(ms, n);
    if i > 0 {
      MemberPlaced(ms[1..], n + Containers(ms[0].value), i - 1, g);
      assert ms[1..][..i - 1] == ms[..i][1..];
      PlacedHead(ms[..i], n);
    } else {
      assert ms[..0] == [];
      NothingPlaced();
    }
  }

  lemma PlacedHead(ms: seq<Member<Json>>, n: Id)
    requires ms != []
    ensures MemberContainers(ms) == Containers(ms[0].value) + MemberContainers(ms[1..])
    ensures PlacedMembers(ms, n)
         == [Member(ms[0].key, Placed(ms[0].value, n))] + PlacedMembers(ms[1..], n + Containers(ms[0].value))
  {
    hide Containers, Placed;
  }

  lemma NothingPlaced()
    ensures MemberContainers([]) == 0
  {
  }

  /** The i-th member of an object whose node is `n`. */
  lemma ChildPlaced(g: Graph, v: Json, n: Id, i: nat)
    requires Within(HeapOf(v, n), g) && v.Obj? && i < |v.members|
    ensures n in g && g[n] == ObjectNode(PlacedMembers(v.members, n + 1))
    ensures MembersOf(g, Ref(n)) == PlacedMembers(v.members, n + 1)
    ensures (var k := n + 1 + MemberContainers(v.members[..i]);
             && MembersOf(g, Ref(n))[i] == Member(v.members[i].key, Placed(v.members[i].value, k))
             && Within(HeapOf(v.members[i].value, k), g))
  {
    hide Within, HeapOf, Placed, PlacedMembers, MemberContainers, MembersHeap;
    WithinNode(v, n, g);
    MemberPlaced(v.members, n + 1, i, g);
  }

  lemma {:induction false} ContainersConcat(a: seq<Member<Json>>, b: seq<Member<Json>>)
    ensures MemberContainers(a + b) == MemberContainers(a) + MemberContainers(b)
  {
    hide Containers;
    if a == [] {
      assert a + b == b;
    } else {
      assert (a + b)[1..] == a[1..] + b;
      ContainersConcat(a[1..], b);
    }
  }

  lemma {:induction false} ScalarsHoldNothing(ms: seq<Member<Json>>)
    requires forall i :: 0 <= i < |ms| ==> Scalar(ms[i].value)
    ensures MemberContainers(ms) == 0
  {
    if ms != [] {
      ScalarsHoldNothing(ms[1..]);
    }
  }

  // ---------------------------------------------------------------- calls

  /** So every plain tree is the argument of a call, which does what the tree's request does. */
  lemma EveryTreeIsAnArgument(v: Json, doc: Doc, t: Times, first: Fault, second: Fault)
    requires Unambiguous(v)
    ensures Heap(HeapOf(v, 0)) && Closed(HeapOf(v, 0)) && Wellformed(HeapOf(v, 0), Placed(v, 0))
    ensures Apply(doc, RequestOf(HeapOf(v, 0), Placed(v, 0)), t, first, second)
         == Apply(doc, TreeRequest(InputIn(v)), t, first, second)
  {
    hide *;
    TreeHeap(v);
    HeapShows(v, 0, HeapOf(v, 0));
    NumberedOnce(v, 0);
    UnsharedIsTree(HeapOf(v, 0), Placed(v, 0), Numbered(v, 0), doc, t, first, second);
  }
}
