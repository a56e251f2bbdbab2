/** A call whose argument holds no object twice does to every document what the call with the plain tree does. */
module ReviewTree {
  import opened Json
  import opened Secrets
  import opened Redaction
  import opened Reachability
  import opened GraphCopies
  import opened Aliasing
  import opened ReviewOutcome
  import opened ReviewLog
  import opened ReviewRequest

  // ---------------------------------------------------------------- reading a value with node identity

  /** The property read `l?.key`. */
  function LinkedAt(l: Linked, key: string): Linked {
    var r := if l.Fields? then Find(l.members, key) else None;
    if r.Some? then r.value else Leaf(Null)
  }

  /** The value `l || null`; dates have a text. */
  function LinkedOr(l: Linked): Linked {
    if l.Leaf? then Leaf(OrNull(l.j)) else l
  }

  lemma {:induction false} FindRepresented(g: Graph, vs: seq<Member<Value>>, ms: seq<Member<Linked>>, key: string)
    requires RepresentsMembers(g, vs, ms)
    ensures Find(vs, key).Some? <==> Find(ms, key).Some?
    ensures Find(ms, key).Some? ==> Represents(g, Find(vs, key).value, Find(ms, key).value)
  {
    hide Represents;
    if ms != [] {
      FindRepresented(g, vs[1..], ms[1..], key);
    }
  }

  lemma RepresentedAt(g: Graph, v: Value, l: Linked, key: string)
    requires Represents(g, v, l)
    ensures Represents(g, At(g, v, key), LinkedAt(l, key))
    ensures Represents(g, Or(At(g, v, key)), LinkedOr(LinkedAt(l, key)))
  {
    if l.Fields? {
      FindRepresented(g, g[l.id].members, l.members, key);
    }
    hide RepresentsItems, RepresentsMembers, Find;
  }

  lemma ErasedAt(l: Linked, key: string)
    requires Proper(l)
    ensures Get(Erase(l), key) == Erase(LinkedAt(l, key)) && Proper(LinkedAt(l, key))
  {
    if l.Fields? {
      FindErased(l.members, key);
      ProperMember(l.members, key);
    }
  }

  /** Represented values are the primitives of the heap. */
  lemma {:induction false} RepresentedIsProper(g: Graph, v: Value, l: Linked)
    requires Closed(g) && Wellformed(g, v) && Represents(g, v, l)
    ensures Proper(l)
    decreases l, 0
  {
    match l
    case Items(id, xs) => RepresentedItemsProper(g, g[id].items, xs);
    case Fields(id, ms) => RepresentedMembersProper(g, g[id].members, ms);
    case _ =>
  }

  lemma {:induction false} RepresentedItemsProper(g: Graph, vs: seq<Value>, xs: seq<Linked>)
    requires Closed(g) && WellformedItems(g, vs) && RepresentsItems(g, vs, xs)
    ensures ProperItems(xs)
    decreases xs
  {
    if xs != [] {
      RepresentedIsProper(g, vs[0], xs[0]);
      RepresentedItemsProper(g, vs[1..], xs[1..]);
    }
  }

  lemma {:induction false} RepresentedMembersProper(g: Graph, vs: seq<Member<Value>>, ms: seq<Member<Linked>>)
    requires Closed(g) && WellformedMembers(g, vs) && RepresentsMembers(g, vs, ms)
    ensures ProperMembers(ms)
    decreases ms
  {
    if ms != [] {
      RepresentedIsProper(g, vs[0].value, ms[0].value);
      RepresentedMembersProper(g, vs[1..], ms[1..]);
    }
  }

  lemma PeekErased(g: Graph, v: Value, l: Linked)
    requires Wellformed(g, v) && Represents(g, v, l)
    ensures Scalar(Peek(g, v)) || Scalar(Erase(l)) ==> Peek(g, v) == Erase(l)
    ensures Truthy(Peek(g, v)) <==> Truthy(Erase(l))
    ensures TextOf(Peek(g, v)) == TextOf(Erase(l))
  {
    hide RepresentsItems, RepresentsMembers, EraseItems, EraseMembers;
  }

  lemma OrErased(g: Graph, v: Value, l: Linked)
    requires Heap(g) && Represents(g, v, l)
    ensures Erase(LinkedOr(l)) == OrNull(Erase(l))
  {
    hide RepresentsItems, RepresentsMembers, EraseItems, EraseMembers, Closed;
  }

  // ---------------------------------------------------------------- the first check

  /** What the first check reads under a name of an object. */
  lemma ViewErased(g: Graph, v: Value, l: Linked, key: string)
    requires Closed(g) && Wellformed(g, v) && Represents(g, v, l)
    ensures (var a, b := Get(View(g, v), key), Get(Erase(l), key);
             && (Truthy(a) <==> Truthy(b)) && (Scalar(a) || Scalar(b) ==> a == b))
  {
    hide *;
    RepresentedIsProper(g, v, l);
    ViewGet(g, v, key);
    AtIsWellformed(g, v, key);
    RepresentedAt(g, v, l, key);
    ErasedAt(l, key);
    PeekErased(g, At(g, v, key), LinkedAt(l, key));
  }

  /** What the first check asks of a patch. */
  lemma PatchErased(g: Graph, v: Value, l: Linked)
    requires Closed(g) && Wellformed(g, v) && Represents(g, v, l)
    ensures Scalar(View(g, v)) <==> Scalar(Erase(l))
    ensures Truthy(View(g, v)) <==> Truthy(Erase(l))
    ensures forall key :: Find(Members(View(g, v)), key).Some? <==> Find(Members(Erase(l)), key).Some?
  {
    RepresentedIsProper(g, v, l);
    hide RepresentsItems, RepresentsMembers, EraseItems, EraseMembers, Find, PeekMembers, Closed;
    if l.Fields? {
      forall key
        ensures Find(PeekMembers(g, g[l.id].members), key).Some? <==> Find(EraseMembers(l.members), key).Some?
      {
        PeekFind(g, g[l.id].members, key);
        FindErased(l.members, key);
        FindRepresented(g, g[l.id].members, l.members, key);
      }
    }
  }

  lemma SameCheck(a: Input, b: Input)
    requires a.actor == b.actor && a.outcome.decision == b.outcome.decision && a.outcome.key == b.outcome.key
    requires Scalar(a.outcome.patch) <==> Scalar(b.outcome.patch)
    requires Truthy(a.outcome.patch) <==> Truthy(b.outcome.patch)
    requires forall key :: Find(Members(a.outcome.patch), key).Some? <==> Find(Members(b.outcome.patch), key).Some?
    requires Truthy(Get(a.draft, "ai_proposed")) <==> Truthy(Get(b.draft, "ai_proposed"))
    requires Truthy(ProposalId(a.draft)) <==> Truthy(ProposalId(b.draft))
    requires Get(a.draft, "posting_status") == Str("DRAFT") <==> Get(b.draft, "posting_status") == Str("DRAFT")
    ensures Validate(a) == Validate(b)
  {
    hide Find, Get, ProposalId, Truthy;
  }

  /** The argument and the tree that it shows pass or fail the first check alike, under one key. */
  lemma TreeCheck(g: Graph, root: Value, l: Linked)
    requires Closed(g) && Wellformed(g, root) && Represents(g, root, l)
    ensures Validate(InputOf(g, root)) == Validate(InputIn(Erase(l)))
    ensures InputOf(g, root).outcome.key == InputIn(Erase(l)).outcome.key
    ensures InputOf(g, root).outcome.decision == InputIn(Erase(l)).outcome.decision
    ensures InputOf(g, root).actor == InputIn(Erase(l)).actor
  {
    hide *;
    var d, o := At(g, root, "draft"), At(g, root, "outcome");
    var dl, ol := LinkedAt(l, "draft"), LinkedAt(l, "outcome");
    RepresentedIsProper(g, root, l);
    ErasedParts(g, root, l, "draft");
    ErasedParts(g, root, l, "outcome");
    ErasedParts(g, root, l, "actor");
    ErasedParts(g, o, ol, "decision");
    ErasedParts(g, o, ol, "idempotency_key");
    ErasedParts(g, o, ol, "patch");
    InputParts(g, root);
    TreeParts(Erase(l));
    PatchErased(g, At(g, o, "patch"), LinkedAt(ol, "patch"));
    ViewErased(g, d, dl, "ai_proposed");
    ViewErased(g, d, dl, "ai_proposal_id");
    ViewErased(g, d, dl, "posting_status");
    ProposalIs(View(g, d));
    ProposalIs(Erase(dl));
    TextIsScalar(Str("DRAFT"));
    SameCheck(InputOf(g, root), InputIn(Erase(l)));
  }

  lemma TreeNamesProposal(g: Graph, root: Value, l: Linked)
    requires Closed(g) && Wellformed(g, root) && Represents(g, root, l) && Scalar(ProposalId(InputIn(Erase(l)).draft))
    ensures ProposalId(InputOf(g, root).draft) == ProposalId(InputIn(Erase(l)).draft)
  {
    hide *;
    RepresentedIsProper(g, root, l);
    ErasedParts(g, root, l, "draft");
    InputParts(g, root);
    TreeParts(Erase(l));
    ViewErased(g, At(g, root, "draft"), LinkedAt(l, "draft"), "ai_proposal_id");
    ProposalIs(InputOf(g, root).draft);
    ProposalIs(InputIn(Erase(l)).draft);
  }

  /** A value and what is read from it, in the heap and in the tree. */
  lemma ErasedParts(g: Graph, v: Value, l: Linked, key: string)
    requires Closed(g) && Represents(g, v, l) && Proper(l)
    ensures Wellformed(g, At(g, v, key)) && Represents(g, At(g, v, key), LinkedAt(l, key)) && Proper(LinkedAt(l, key))
    ensures Get(Erase(l), key) == Erase(LinkedAt(l, key))
    ensures TextOf(Peek(g, At(g, v, key))) == TextOf(Get(Erase(l), key))
  {
    hide *;
    AtIsWellformed(g, v, key);
    RepresentedAt(g, v, l, key);
    ErasedAt(l, key);
    PeekErased(g, At(g, v, key), LinkedAt(l, key));
  }

  // ---------------------------------------------------------------- the stored copy

  lemma RedactedText(v: Json)
    ensures TextOf(Redact(v)) == TextOf(v)
  {
  }

  /** Reading a request from a redacted tree is redacting the request read from the tree. */
  lemma RedactedInput(v: Json)
    ensures InputIn(Redact(v)) == RedactInput(InputIn(v))
  {
    hide SecretKey, Redact, Get, TextOf;
    PublicParts();
    var o := Get(v, "outcome");
    RedactGet(v, "draft");
    RedactGet(v, "outcome");
    RedactGet(v, "actor");
    RedactGet(o, "decision");
    RedactGet(o, "idempotency_key");
    RedactGet(o, "reason");
    RedactGet(o, "patch");
    RedactGet(o, "review_metadata");
    RedactedText(Get(v, "actor"));
    RedactedText(Get(o, "decision"));
    RedactedText(Get(o, "idempotency_key"));
  }

  lemma StoredTree(g: Graph, root: Value, l: Linked)
    requires Closed(g) && Wellformed(g, root) && Represents(g, root, l) && AliasFree(l)
    ensures RequestOf(g, root).stored == RedactInput(InputIn(Erase(l)))
  {
    hide *;
    RepresentedIsProper(g, root, l);
    RequestIs(g, root);
    DatesUnseenIs(g, {});
    GraphRefinesLinked(g, root, l, {});
    assert Nodes(l) !! {};
    TreeShapedIffAliasFree(l, {});
    RedactedInput(Erase(l));
  }

  // ---------------------------------------------------------------- the payload

  lemma {:induction false} MembersApart(ms: seq<Member<Linked>>, a: string, b: string)
    requires AliasFreeMembers(ms) && !SecretKey(a) && !SecretKey(b)
    ensures Find(ms, a).Some? ==> AliasFree(Find(ms, a).value)
    ensures a != b && Find(ms, a).Some? && Find(ms, b).Some? ==> Nodes(Find(ms, a).value) !! Nodes(Find(ms, b).value)
  {
    hide SecretKey, Nodes, AliasFree;
    if ms != [] {
      MembersApart(ms[1..], a, b);
      MemberNodesOf(ms[1..], a);
      MemberNodesOf(ms[1..], b);
    }
  }

  lemma PartsApart(l: Linked, a: string, b: string)
    requires AliasFree(l) && !SecretKey(a) && !SecretKey(b)
    ensures AliasFree(LinkedAt(l, a)) && Nodes(LinkedAt(l, a)) <= Nodes(l)
    ensures a != b ==> Nodes(LinkedAt(l, a)) !! Nodes(LinkedAt(l, b))
  {
    hide SecretKey;
    if l.Fields? {
      MembersApart(l.members, a, b);
      MemberNodesOf(l.members, a);
    }
  }

  function LinkedHolder(l: Linked, i: nat): Linked {
    if i < 3 then LinkedAt(l, "draft") else if i < 7 then LinkedAt(l, "outcome") else l
  }

  /** The i-th value of the payload, with node identity. */
  function LinkedPart(l: Linked, key: string, i: nat): Linked {
    LinkedOr(LinkedAt(LinkedHolder(l, i), key))
  }

  lemma {:induction false} NamedRepresented(g: Graph, names: seq<string>, vs: seq<Value>, ls: seq<Linked>)
    requires |names| == |vs| == |ls| && forall i :: 0 <= i < |vs| ==> Represents(g, vs[i], ls[i])
    ensures RepresentsMembers(g, Named(names, vs), Named(names, ls))
  {
    hide Represents;
    if names != [] {
      NamedRepresented(g, names[1..], vs[1..], ls[1..]);
    }
  }

  lemma {:induction false} NamedErased(names: seq<string>, ls: seq<Linked>, vs: seq<Json>)
    requires |names| == |vs| == |ls| && forall i :: 0 <= i < |vs| ==> Erase(ls[i]) == vs[i]
    ensures EraseMembers(Named(names, ls)) == Named(names, vs)
  {
    hide Erase;
    if names != [] {
      NamedErased(names[1..], ls[1..], vs[1..]);
    }
  }

  lemma {:induction false} NamedApart(names: seq<string>, ls: seq<Linked>)
    requires |names| == |ls| && forall i :: 0 <= i < |ls| ==> AliasFree(ls[i]) && Proper(ls[i])
    requires forall i, j :: 0 <= i < j < |ls| ==> Nodes(ls[i]) !! Nodes(ls[j])
    ensures AliasFreeMembers(Named(names, ls)) && ProperMembers(Named(names, ls))
    ensures forall id :: id in MemberNodes(Named(names, ls)) ==> exists i :: 0 <= i < |ls| && id in Nodes(ls[i])
  {
    hide SecretKey, AliasFree, Nodes, Proper;
    if names != [] {
      NamedApart(names[1..], ls[1..]);
      forall id | id in MemberNodes(Named(names[1..], ls[1..]))
        ensures id !in Nodes(ls[0]) && exists i :: 0 <= i < |ls| && id in Nodes(ls[i])
      {
        var i :| 0 <= i < |ls[1..]| && id in Nodes(ls[1..][i]);
        assert ls[i + 1] == ls[1..][i];
      }
    }
  }

  lemma HolderErased(g: Graph, root: Value, l: Linked, i: nat)
    requires Closed(g) && Wellformed(g, root) && Represents(g, root, l)
    ensures Represents(g, PartHolder(g, root, i), LinkedHolder(l, i)) && Proper(LinkedHolder(l, i))
    ensures Erase(LinkedHolder(l, i))
         == if i < 3 then Get(Erase(l), "draft") else if i < 7 then Get(Erase(l), "outcome") else Erase(l)
  {
    RepresentedIsProper(g, root, l);
    hide Represents, Proper, LinkedAt, At, Erase, Get;
    ErasedParts(g, root, l, "draft");
    ErasedParts(g, root, l, "outcome");
  }

  lemma PartErased(g: Graph, root: Value, l: Linked, i: nat)
    requires Heap(g) && Closed(g) && Wellformed(g, root) && Represents(g, root, l) && i < 8
    ensures (var part, key := LinkedPart(l, PartKeys(g, root)[i], i), PartKeys(g, root)[i];
             && Represents(g, PartValue(g, root, i), part) && Proper(part)
             && Erase(part) == OrNull(Get(Erase(LinkedHolder(l, i)), key)))
  {
    hide *;
    var h, hl, key := PartHolder(g, root, i), LinkedHolder(l, i), PartKeys(g, root)[i];
    HolderErased(g, root, l, i);
    PartValueIs(g, root, i);
    LinkedPartIs(l, key, i);
    ErasedParts(g, h, hl, key);
    RepresentedAt(g, h, hl, key);
    OrErased(g, At(g, h, key), LinkedAt(hl, key));
    OrIsProper(LinkedAt(hl, key));
  }

  lemma LinkedPartIs(l: Linked, key: string, i: nat)
    ensures LinkedPart(l, key, i) == LinkedOr(LinkedAt(LinkedHolder(l, i), key))
  {
    hide LinkedOr, LinkedAt, LinkedHolder;
  }

  lemma OrIsProper(l: Linked)
    ensures (Proper(l) ==> Proper(LinkedOr(l))) && Nodes(LinkedOr(l)) == Nodes(l)
    ensures AliasFree(l) ==> AliasFree(LinkedOr(l))
  {
  }

  lemma ReferenceIsTruthy(g: Graph, v: Value)
    requires Heap(g) && Wellformed(g, v)
    ensures Truthy(Peek(g, v)) <==> v.Ref? || Truthy(v.j)
  {
    hide Closed;
  }

  /** The draft is known under the same name in the heap and in the tree. */
  lemma DraftIdErased(g: Graph, root: Value, l: Linked)
    requires Heap(g) && Closed(g) && Wellformed(g, root) && Represents(g, root, l)
    ensures (var d := Get(Erase(l), "draft");
             OrNull(Get(d, DraftIdKey(g, At(g, root, "draft")))) == DraftNames(d).1)
  {
    hide *;
    RepresentedIsProper(g, root, l);
    var d, dl := At(g, root, "draft"), LinkedAt(l, "draft");
    ErasedParts(g, root, l, "draft");
    ErasedParts(g, d, dl, "je_id");
    PeekErased(g, At(g, d, "je_id"), LinkedAt(dl, "je_id"));
    ReferenceIsTruthy(g, At(g, d, "je_id"));
    DraftIdKeyIs(g, d);
    DraftNamesAre(Erase(dl));
    TruthyStays(Get(Erase(dl), "je_id"));
  }

  /** The values that the payload takes from the heap show the values that it takes from the tree. */
  lemma PartIsTree(g: Graph, root: Value, l: Linked, i: nat)
    requires Heap(g) && Closed(g) && Wellformed(g, root) && Represents(g, root, l) && i < 8
    requires Validate(InputOf(g, root)).None?
    ensures (var vs := PayloadValues(InputIn(Erase(l)));
             |vs| == 8 && Erase(LinkedPart(l, PartKeys(g, root)[i], i)) == vs[i])
  {
    hide *;
    PartErased(g, root, l, i);
    HolderErased(g, root, l, i);
    PartValueIs(g, root, i);
    TreeParts(Erase(l));
    PayloadValuesAre(InputIn(Erase(l)));
    DraftNamesAre(Get(Erase(l), "draft"));
    DraftIdErased(g, root, l);
    TreeCheck(g, root, l);
    AcceptedArgument(g, root);
    TextOfText(Get(Get(Erase(l), "outcome"), "decision"));
    TextOfText(Get(Erase(l), "actor"));
  }

  lemma HoldersApart(l: Linked, i: nat, j: nat, a: string, b: string)
    requires AliasFree(l) && i < j < 8 && !SecretKey(a) && !SecretKey(b) && a != b
    requires j == 7 ==> b == "actor"
    ensures AliasFree(LinkedPart(l, a, i)) && AliasFree(LinkedPart(l, b, j))
    ensures Nodes(LinkedPart(l, a, i)) !! Nodes(LinkedPart(l, b, j))
  {
    hide *;
    LinkedPartIs(l, a, i);
    LinkedPartIs(l, b, j);
    var h, k := LinkedHolder(l, i), LinkedHolder(l, j);
    OrIsProper(LinkedAt(h, a));
    OrIsProper(LinkedAt(k, b));
    ArgumentApart(l);
    LinkedHolderIs(l, i);
    LinkedHolderIs(l, j);
    PartsApart(h, a, b);
    PartsApart(k, b, a);
  }

  lemma LinkedHolderIs(l: Linked, i: nat)
    ensures LinkedHolder(l, i) == if i < 3 then LinkedAt(l, "draft") else if i < 7 then LinkedAt(l, "outcome") else l
  {
    hide LinkedAt;
  }

  lemma ArgumentApart(l: Linked)
    requires AliasFree(l)
    ensures (var d, o, a := LinkedAt(l, "draft"), LinkedAt(l, "outcome"), LinkedAt(l, "actor");
             && AliasFree(d) && AliasFree(o) && Nodes(d) !! Nodes(o) && Nodes(d) !! Nodes(a) && Nodes(o) !! Nodes(a))
  {
    assert |"draft"| == 5 && |"outcome"| == 7 && |"actor"| == 5 && "draft"[0] == 'd' && "actor"[0] == 'a';
    hide SecretKey, AliasFree, Nodes, LinkedAt;
    PublicParts();
    PartsApart(l, "draft", "outcome");
    PartsApart(l, "outcome", "actor");
    PartsApart(l, "draft", "actor");
  }

  lemma DraftIdKeySize(g: Graph, d: Value)
    ensures (var key := DraftIdKey(g, d); (|key| == 5 || |key| == 9) && key[0] == 'j' && !SecretKey(key))
  {
    hide SecretKey, At;
    PublicParts();
  }

  lemma PartKeySizes(g: Graph, root: Value)
    ensures (var keys := PartKeys(g, root);
             && keys[7] == "actor"
             && |keys[0]| == 14 && |keys[1]| in {5, 9} && |keys[2]| == 15 && |keys[3]| == 8 && |keys[4]| == 6
             && |keys[5]| == 5 && |keys[6]| == 15 && |keys[7]| == 5 && keys[1][0] == 'j' && keys[2][0] == 'i'
             && keys[5][0] == 'p' && keys[6][0] == 'r' && keys[7][0] == 'a')
    ensures forall i :: 0 <= i < 8 ==> !SecretKey(PartKeys(g, root)[i])
  {
    DraftIdKeySize(g, At(g, root, "draft"));
    hide DraftIdKey, SecretKey, At;
    PublicParts();
  }

  lemma PartKeysDiffer(g: Graph, root: Value)
    ensures PartKeys(g, root)[7] == "actor" && forall i :: 0 <= i < 8 ==> !SecretKey(PartKeys(g, root)[i])
    ensures forall i, j :: 0 <= i < j < 8 ==> PartKeys(g, root)[i] != PartKeys(g, root)[j]
  {
    hide *;
    PartKeySizes(g, root);
  }

  function LinkedParts(g: Graph, root: Value, l: Linked): seq<Linked> {
    seq(8, i requires 0 <= i < 8 => LinkedPart(l, PartKeys(g, root)[i], i))
  }

  lemma LinkedPartsAre(g: Graph, root: Value, l: Linked)
    ensures |LinkedParts(g, root, l)| == 8
    ensures forall i :: 0 <= i < 8 ==> LinkedParts(g, root, l)[i] == LinkedPart(l, PartKeys(g, root)[i], i)
  {
    hide LinkedPart, PartKeys;
  }

  lemma PartValuesAre(g: Graph, root: Value)
    ensures |PartValues(g, root)| == 8 == |PAYLOAD_NAMES|
    ensures forall i :: 0 <= i < 8 ==> PartValues(g, root)[i] == PartValue(g, root, i)
    ensures PayloadParts(g, root) == Named(PAYLOAD_NAMES, PartValues(g, root))
  {
    hide PartValue, Named;
  }

  /** The payload of the call is that of the tree. */
  lemma SentIsTree(g: Graph, root: Value, l: Linked)
    requires Heap(g) && Closed(g) && Wellformed(g, root) && Represents(g, root, l) && AliasFree(l)
    requires Validate(InputOf(g, root)).None?
    ensures Obj(SentMembers(g, root)) == Payload(InputIn(Erase(l)))
  {
    hide *;
    var ls, vs := LinkedParts(g, root, l), PayloadValues(InputIn(Erase(l)));
    LinkedPartsAre(g, root, l);
    PartValuesAre(g, root);
    PartKeysDiffer(g, root);
    PayloadIs(InputIn(Erase(l)));
    forall i | 0 <= i < 8
      ensures Represents(g, PartValues(g, root)[i], ls[i]) && Proper(ls[i]) && AliasFree(ls[i]) && Erase(ls[i]) == vs[i]
    {
      PartErased(g, root, l, i);
      PartIsTree(g, root, l, i);
      if i < 7 {
        HoldersApart(l, i, 7, PartKeys(g, root)[i], PartKeys(g, root)[7]);
      } else {
        HoldersApart(l, 0, 7, PartKeys(g, root)[0], PartKeys(g, root)[7]);
      }
    }
    forall i, j | 0 <= i < j < 8
      ensures Nodes(ls[i]) !! Nodes(ls[j])
    {
      HoldersApart(l, i, j, PartKeys(g, root)[i], PartKeys(g, root)[j]);
    }
    var parts := Named(PAYLOAD_NAMES, ls);
    NamedRepresented(g, PAYLOAD_NAMES, PartValues(g, root), ls);
    NamedErased(PAYLOAD_NAMES, ls, vs);
    NamedApart(PAYLOAD_NAMES, ls);
    SentAre(g, root);
    DatesUnseenIs(g, {});
    PartsAreWellformed(g, root);
    GraphRefinesMembers(g, PayloadParts(g, root), parts, {});
    assert MemberNodes(parts) !! {};
    TreeShapedMembers(parts, {});
  }

  lemma SameRequest(doc: Doc, a: Request, b: Request, t: Times, first: Fault, second: Fault)
    requires Validate(a.input) == Validate(b.input) && a.input.outcome.key == b.input.outcome.key
    requires Validate(a.input).None? ==> a.canonical == b.canonical && a.stored == b.stored
    ensures Apply(doc, a, t, first, second) == Apply(doc, b, t, first, second)
  {
    hide Validate, Commit, FindRow, FindDraft, FindEvent, PersistError, Saved;
  }

  /**
   * A call whose argument holds no object twice, outside secret members and whatever the order of its members,
   * answers and stores what the call with the plain tree does.
   */
  lemma UnsharedIsTree(g: Graph, root: Value, l: Linked, doc: Doc, t: Times, first: Fault, second: Fault)
    requires Heap(g) && Closed(g) && Wellformed(g, root) && Represents(g, root, l) && AliasFree(l)
    ensures Apply(doc, RequestOf(g, root), t, first, second) == Apply(doc, TreeRequest(InputIn(Erase(l))), t, first, second)
  {
    hide *;
    var tree := InputIn(Erase(l));
    RequestIs(g, root);
    TreeRequestIs(tree);
    TreeCheck(g, root, l);
    StoredTree(g, root, l);
    if Validate(InputOf(g, root)).None? {
      SentIsTree(g, root, l);
      PayloadTextIs(tree);
    }
    SameRequest(doc, RequestOf(g, root), TreeRequest(tree), t, first, second);
  }
}
