/** What a call of the review repository makes of its argument: any value of a heap, shared or circular as it may be. */
module ReviewRequest {
  import opened Json
  import opened Secrets
  import opened Canonical
  import opened Redaction
  import opened Reachability
  import opened GraphCopies
  import opened ReviewOutcome
  import opened ReviewLog

  // ---------------------------------------------------------------- reading the argument

  function MembersOf(g: Graph, v: Value): seq<Member<Value>> {
    if v.Ref? && v.id in g && g[v.id].ObjectNode? then g[v.id].members else []
  }

  /** The property read `v?.key`. */
  function At(g: Graph, v: Value, key: string): Value {
    var r := Find(MembersOf(g, v), key);
    if r.Some? then r.value else Prim(Null)
  }

  /** The value `v || null`. */
  function Or(v: Value): Value {
    if v.Prim? then Prim(OrNull(v.j)) else v
  }

  /** One value without what it holds. */
  function Peek(g: Graph, v: Value): Json {
    if v.Prim? then v.j
    else if v.id !in g then Null
    else
      match g[v.id]
      case DateNode(iso) => Str(iso)
      case ArrayNode(_) => Arr([])
      case ObjectNode(_) => Obj([])
  }

  function PeekMembers(g: Graph, ms: seq<Member<Value>>): seq<Member<Json>> {
    if ms == [] then [] else [Member(ms[0].key, Peek(g, ms[0].value))] + PeekMembers(g, ms[1..])
  }

  /** An object with its members one level deep, which is as far as the first check looks. */
  function View(g: Graph, v: Value): Json {
    if v.Ref? && v.id in g && g[v.id].ObjectNode? then Obj(PeekMembers(g, g[v.id].members)) else Peek(g, v)
  }

  /** Keys, decisions and actors are texts. */
  function TextOf(v: Json): string {
    if v.Str? then v.s else ""
  }

  /** What the first check sees of an argument. */
  function InputOf(g: Graph, root: Value): Input {
    var o := At(g, root, "outcome");
    Input(View(g, At(g, root, "draft")),
          Outcome(TextOf(Peek(g, At(g, o, "decision"))), TextOf(Peek(g, At(g, o, "idempotency_key"))),
                  Peek(g, At(g, o, "reason")), View(g, At(g, o, "patch")), Peek(g, At(g, o, "review_metadata"))),
          TextOf(Peek(g, At(g, root, "actor"))))
  }

  /** The request that a plain tree shows. */
  function InputIn(v: Json): Input {
    var o := Get(v, "outcome");
    Input(Get(v, "draft"),
          Outcome(TextOf(Get(o, "decision")), TextOf(Get(o, "idempotency_key")),
                  Get(o, "reason"), Get(o, "patch"), Get(o, "review_metadata")),
          TextOf(Get(v, "actor")))
  }

  /** Under which of its two names a draft is known. */
  function DraftIdKey(g: Graph, d: Value): string {
    if At(g, d, "je_id").Ref? || Truthy(At(g, d, "je_id").j) then "je_id" else "je_number"
  }

  /** Where the payload takes its values from: two objects of the argument and the argument itself. */
  function PartHolder(g: Graph, root: Value, i: nat): Value {
    if i < 3 then At(g, root, "draft") else if i < 7 then At(g, root, "outcome") else root
  }

  function PartKeys(g: Graph, root: Value): (r: seq<string>)
    ensures |r| == 8
  {
    ["ai_proposal_id", DraftIdKey(g, At(g, root, "draft")), "idempotency_key", "decision", "reason", "patch",
     "review_metadata", "actor"]
  }

  function PartValue(g: Graph, root: Value, i: nat): Value
    requires i < 8
  {
    Or(At(g, PartHolder(g, root, i), PartKeys(g, root)[i]))
  }

  function PartValues(g: Graph, root: Value): seq<Value> {
    [PartValue(g, root, 0), PartValue(g, root, 1), PartValue(g, root, 2), PartValue(g, root, 3),
     PartValue(g, root, 4), PartValue(g, root, 5), PartValue(g, root, 6), PartValue(g, root, 7)]
  }

  /** The members of the payload object, before it is redacted. */
  function PayloadParts(g: Graph, root: Value): seq<Member<Value>> {
    Named(PAYLOAD_NAMES, PartValues(g, root))
  }

  lemma AtIsWellformed(g: Graph, v: Value, key: string)
    requires Closed(g)
    ensures Wellformed(g, At(g, v, key)) && Wellformed(g, Or(At(g, v, key)))
    ensures WellformedMembers(g, MembersOf(g, v))
  {
  }

  lemma PartsAreWellformed(g: Graph, root: Value)
    requires Closed(g)
    ensures |PayloadParts(g, root)| == 8 && WellformedMembers(g, PayloadParts(g, root))
    ensures forall i :: 0 <= i < 8 ==> Wellformed(g, PartValue(g, root, i))
    ensures forall i :: 0 <= i < 8 ==> PayloadParts(g, root)[i] == Member(PAYLOAD_NAMES[i], PartValue(g, root, i))
  {
    hide At, Or, Closed, Wellformed;
    forall i | 0 <= i < 8
      ensures Wellformed(g, PartValue(g, root, i))
    {
      AtIsWellformed(g, PartHolder(g, root, i), PartKeys(g, root)[i]);
    }
  }

  /** The members of the redacted payload. */
  function SentMembers(g: Graph, root: Value): (r: seq<Member<Json>>)
    requires Closed(g)
    ensures |r| == 8
  {
    PartsAreWellformed(g, root);
    RedactProperties(g, PayloadParts(g, root), {}).0
  }

  /** The call reads the values, redacts the payload it builds from them, and stores the redacted argument. */
  function RequestOf(g: Graph, root: Value): Request
    requires Closed(g) && Wellformed(g, root)
  {
    Request(InputOf(g, root), CanonicalText(Obj(SentMembers(g, root))), InputIn(RedactValue(g, root, {}).0))
  }

  lemma RequestIs(g: Graph, root: Value)
    requires Closed(g) && Wellformed(g, root)
    ensures (var req := RequestOf(g, root);
             && req.input == InputOf(g, root) && req.stored == InputIn(RedactValue(g, root, {}).0)
             && req.canonical == CanonicalText(Obj(SentMembers(g, root))))
  {
    hide InputOf, InputIn, CanonicalText, RedactValue, SentMembers;
  }

  // ---------------------------------------------------------------- one member of a copy

  /** The nodes met before the member of this name. */
  function SeenBefore(g: Graph, ms: seq<Member<Value>>, seen: set<Id>, key: string): (r: set<Id>)
    requires Closed(g) && WellformedMembers(g, ms)
    ensures seen <= r
  {
    if ms == [] || ms[0].key == key then seen else SeenBefore(g, ms[1..], RedactProperty(g, ms[0], seen).1, key)
  }

  lemma {:induction false} CopiedMember(g: Graph, ms: seq<Member<Value>>, seen: set<Id>, key: string)
    requires Closed(g) && WellformedMembers(g, ms) && !SecretKey(key)
    ensures Find(ms, key).Some? ==> Wellformed(g, Find(ms, key).value)
    ensures Find(RedactProperties(g, ms, seen).0, key)
         == if Find(ms, key).Some? then Some(RedactValue(g, Find(ms, key).value, SeenBefore(g, ms, seen, key)).0) else None
    decreases |ms|
  {
    hide SecretKey, RedactValue;
    if ms != [] {
      CopiedMember(g, ms[1..], RedactProperty(g, ms[0], seen).1, key);
      assert RedactProperties(g, ms, seen).0[1..] == RedactProperties(g, ms[1..], RedactProperty(g, ms[0], seen).1).0;
    }
  }

  lemma {:induction false} DatesUnseenBefore(g: Graph, ms: seq<Member<Value>>, seen: set<Id>, key: string)
    requires Closed(g) && WellformedMembers(g, ms) && DatesUnseen(g, seen)
    ensures DatesUnseen(g, SeenBefore(g, ms, seen, key))
    decreases |ms|
  {
    hide SecretKey, RedactValue, DatesUnseen, Wellformed, Closed;
    if ms != [] && ms[0].key != key {
      if !SecretKey(ms[0].key) {
        DatesStayUnseen(g, ms[0].value, seen);
      }
      DatesUnseenBefore(g, ms[1..], RedactProperty(g, ms[0], seen).1, key);
    }
  }

  /** What the copy of an object not met before shows under a public name. */
  lemma CopiedAt(g: Graph, v: Value, seen: set<Id>, key: string)
    requires Heap(g) && v.Ref? && v.id in g && g[v.id].ObjectNode? && v.id !in seen && !SecretKey(key)
    ensures WellformedMembers(g, MembersOf(g, v)) && Wellformed(g, At(g, v, key)) && Wellformed(g, v) && Closed(g)
    ensures Get(RedactValue(g, v, seen).0, key)
         == RedactValue(g, At(g, v, key), SeenBefore(g, MembersOf(g, v), seen + {v.id}, key)).0
    ensures RedactValue(g, v, seen).0.Obj?
  {
    hide SecretKey, Heap, RedactProperties;
    HeapIsClosed(g);
    AtIsWellformed(g, v, key);
    ContainerIs(g, v.id, seen);
    CopiedMember(g, g[v.id].members, seen + {v.id}, key);
  }

  /** Texts, numbers, dates and the like are copied as they are. */
  lemma ScalarCopied(g: Graph, v: Value, seen: set<Id>)
    requires Closed(g) && Wellformed(g, v) && Scalar(Peek(g, v)) && DatesUnseen(g, seen)
    ensures RedactValue(g, v, seen) == (Peek(g, v), seen)
  {
  }

  lemma {:induction false} PeekFind(g: Graph, ms: seq<Member<Value>>, key: string)
    ensures Find(PeekMembers(g, ms), key) == if Find(ms, key).Some? then Some(Peek(g, Find(ms, key).value)) else None
  {
    if ms != [] {
      PeekFind(g, ms[1..], key);
      assert PeekMembers(g, ms)[1..] == PeekMembers(g, ms[1..]);
    }
  }

  lemma ViewGet(g: Graph, v: Value, key: string)
    requires Wellformed(g, v)
    ensures Get(View(g, v), key) == Peek(g, At(g, v, key))
  {
    PeekFind(g, MembersOf(g, v), key);
  }

  // ---------------------------------------------------------------- the stored copy

  lemma {:induction false} MaskedFind(ms: seq<Member<Json>>, key: string)
    requires MaskedMembers(ms) && !SecretKey(key)
    ensures Find(ms, key).Some? ==> Masked(Find(ms, key).value)
  {
    hide SecretKey, Masked;
    if ms != [] {
      MaskedFind(ms[1..], key);
    }
  }

  lemma MaskedGet(v: Json, key: string)
    requires Masked(v) && !SecretKey(key)
    ensures Masked(Get(v, key)) && Redact(Get(v, key)) == Get(v, key)
  {
    hide SecretKey;
    if v.Obj? {
      MaskedFind(v.members, key);
    }
    RedactFixes(Get(v, key));
  }

  lemma StoredIsRedacted(g: Graph, root: Value)
    requires Closed(g) && Wellformed(g, root)
    ensures RedactInput(RequestOf(g, root).stored) == RequestOf(g, root).stored
  {
    hide SecretKey, Redact, Masked, Get, RedactValue, RequestOf;
    var v := RedactValue(g, root, {}).0;
    RequestIs(g, root);
    CopiesEachNodeOnce(g, root, {});
    PublicParts();
    MaskedGet(v, "draft");
    MaskedGet(v, "outcome");
    MaskedGet(Get(v, "outcome"), "reason");
    MaskedGet(Get(v, "outcome"), "patch");
    MaskedGet(Get(v, "outcome"), "review_metadata");
  }

  lemma PublicParts()
    ensures !SecretKey("draft") && !SecretKey("outcome") && !SecretKey("actor") && !SecretKey("decision")
    ensures !SecretKey("reason") && !SecretKey("patch") && !SecretKey("review_metadata")
    ensures !SecretKey("idempotency_key") && !SecretKey("ai_proposal_id") && !SecretKey("je_id") && !SecretKey("je_number")
  {
    hide SecretKey;
    DraftIsPublic();
    OutcomeIsPublic();
    ActorIsPublic();
    DecisionIsPublic();
    ReasonIsPublic();
    PatchIsPublic();
    ReviewMetadataIsPublic();
    DraftColumnsArePublic();
  }

  lemma AcceptedOutcome(input: Input)
    requires Validate(input).None?
    ensures IsAIDraft(input.draft) && input.outcome.decision != "" && input.outcome.key != ""
  {
    hide IsAIDraft, TouchesTrace;
  }

  lemma StorableFrom(req: Request)
    ensures Storable(req)
       <==> && req.canonical != "" && RedactInput(req.stored) == req.stored
            && (Validate(req.input).None? ==> Scalar(ProposalId(req.input.draft)))
            && (Validate(req.input).None? && Validate(req.stored).None? ==>
                  req.stored.outcome.key == req.input.outcome.key
                  && ProposalId(req.stored.draft) == ProposalId(req.input.draft))
  {
    hide Validate, RedactInput, ProposalId;
  }

  /** An argument that passes the first check is an object that holds a draft, an outcome and an actor. */
  lemma AcceptedArgument(g: Graph, root: Value)
    requires Closed(g) && Wellformed(g, root) && Validate(InputOf(g, root)).None?
    ensures (var d, o := At(g, root, "draft"), At(g, root, "outcome");
             && root.Ref? && root.id in g && g[root.id].ObjectNode?
             && d.Ref? && d.id in g && g[d.id].ObjectNode? && o.Ref? && o.id in g && g[o.id].ObjectNode?)
    ensures Truthy(Peek(g, At(g, At(g, root, "draft"), "ai_proposal_id")))
    ensures Peek(g, At(g, At(g, root, "outcome"), "decision")).Str? && InputOf(g, root).outcome.decision != ""
    ensures Peek(g, At(g, root, "actor")).Str? && InputOf(g, root).actor != ""
    ensures Peek(g, At(g, At(g, root, "outcome"), "idempotency_key")).Str?
  {
    hide TouchesTrace, Peek, View, Closed, Wellformed;
    AtIsWellformed(g, root, "draft");
    AcceptedOutcome(InputOf(g, root));
    var d := At(g, root, "draft");
    ViewGet(g, d, "ai_proposal_id");
    if !(d.Ref? && d.id in g && g[d.id].ObjectNode?) {
      NothingAt(g, d, "ai_proposal_id");
    }
    NothingAt(g, At(g, root, "outcome"), "decision");
    NothingAt(g, root, "draft");
    NothingAt(g, Prim(Null), "ai_proposal_id");
  }

  lemma NothingAt(g: Graph, v: Value, key: string)
    ensures !(v.Ref? && v.id in g && g[v.id].ObjectNode?) ==> At(g, v, key) == Prim(Null)
    ensures Peek(g, Prim(Null)) == Null
  {
  }

  /** A call's request is storable however its objects are shared, as long as its proposal id is no object. */
  lemma RequestIsStorable(g: Graph, root: Value)
    requires Heap(g) && Wellformed(g, root) && Scalar(ProposalId(InputOf(g, root).draft))
    ensures Closed(g) && Storable(RequestOf(g, root))
  {
    hide *;
    HeapIsClosed(g);
    RequestIs(g, root);
    StoredIsRedacted(g, root);
    RequestTextNotEmpty(g, root);
    if Validate(RequestOf(g, root).input).None? && Validate(RequestOf(g, root).stored).None? {
      StoredNames(g, root);
    }
    StorableFrom(RequestOf(g, root));
  }

  lemma TextNotEmpty(ms: seq<Member<Json>>)
    ensures CanonicalText(Obj(ms)) != ""
  {
    hide Canon, SortMembers, CanonMembers;
  }

  lemma RequestTextNotEmpty(g: Graph, root: Value)
    requires Closed(g) && Wellformed(g, root)
    ensures RequestOf(g, root).canonical != ""
  {
    hide RequestOf, SentMembers;
    RequestIs(g, root);
    TextNotEmpty(SentMembers(g, root));
  }

  lemma InputParts(g: Graph, root: Value)
    ensures (var input, o := InputOf(g, root), At(g, root, "outcome");
             && input.draft == View(g, At(g, root, "draft"))
             && input.outcome.decision == TextOf(Peek(g, At(g, o, "decision")))
             && input.outcome.key == TextOf(Peek(g, At(g, o, "idempotency_key")))
             && input.outcome.reason == Peek(g, At(g, o, "reason"))
             && input.outcome.patch == View(g, At(g, o, "patch"))
             && input.outcome.metadata == Peek(g, At(g, o, "review_metadata"))
             && input.actor == TextOf(Peek(g, At(g, root, "actor"))))
  {
    hide View, At, TextOf, Peek;
  }

  lemma TreeParts(v: Json)
    ensures (var input, o := InputIn(v), Get(v, "outcome");
             && input.draft == Get(v, "draft") && input.outcome.decision == TextOf(Get(o, "decision"))
             && input.outcome.key == TextOf(Get(o, "idempotency_key")) && input.outcome.reason == Get(o, "reason")
             && input.outcome.patch == Get(o, "patch") && input.outcome.metadata == Get(o, "review_metadata")
             && input.actor == TextOf(Get(v, "actor")))
  {
    hide Get, TextOf;
  }

  lemma NoMembersNoRead(v: Json, key: string)
    ensures !v.Obj? ==> Get(v, key) == Null
    ensures TextOf(Null) == ""
  {
  }

  /** What was met before the member `key` of the object `v` itself, once `seen` had been met. */
  function SeenAt(g: Graph, v: Value, seen: set<Id>, key: string): set<Id>
    requires Closed(g)
  {
    AtIsWellformed(g, v, key);
    SeenBefore(g, MembersOf(g, v), if v.Ref? then seen + {v.id} else seen, key)
  }

  /** The copy of a member of a member of the argument, when the object that holds it was not met before. */
  lemma CopiedPart(g: Graph, root: Value, name: string, key: string)
    requires Heap(g) && root.Ref? && root.id in g && g[root.id].ObjectNode? && !SecretKey(name) && !SecretKey(key)
    requires (var h := At(g, root, name); h.Ref? && h.id in g && g[h.id].ObjectNode?)
    ensures Closed(g) && Wellformed(g, root) && Wellformed(g, At(g, root, name)) && Wellformed(g, At(g, At(g, root, name), key))
    ensures (var h, before := At(g, root, name), SeenAt(g, root, {}, name);
             && DatesUnseen(g, before) && DatesUnseen(g, SeenAt(g, h, before, key))
             && (if h.id in before then Get(RedactValue(g, root, {}).0, name) == Str(CIRCULAR)
                 else Get(Get(RedactValue(g, root, {}).0, name), key)
                      == RedactValue(g, At(g, h, key), SeenAt(g, h, before, key)).0))
  {
    hide *;
    HeapIsClosed(g);
    var h, before := At(g, root, name), SeenAt(g, root, {}, name);
    AtIsWellformed(g, root, name);
    AtIsWellformed(g, h, key);
    SeenAtIs(g, root, {}, name);
    SeenAtIs(g, h, before, key);
    CopiedAt(g, root, {}, name);
    DatesUnseenIs(g, {} + {root.id});
    DatesUnseenBefore(g, MembersOf(g, root), {} + {root.id}, name);
    DatesUnseenIs(g, before);
    DatesUnseenIs(g, before + {h.id});
    DatesUnseenBefore(g, MembersOf(g, h), before + {h.id}, key);
    if h.id in before {
      OtherIs(g, h, before);
    } else {
      CopiedAt(g, h, before, key);
    }
  }

  lemma SeenAtIs(g: Graph, v: Value, seen: set<Id>, key: string)
    requires Closed(g)
    ensures WellformedMembers(g, MembersOf(g, v))
    ensures v.Ref? ==> SeenAt(g, v, seen, key) == SeenBefore(g, MembersOf(g, v), seen + {v.id}, key)
  {
    hide SeenBefore, MembersOf;
    AtIsWellformed(g, v, key);
  }

  lemma StoredNames(g: Graph, root: Value)
    requires Heap(g) && Closed(g) && Wellformed(g, root) && Scalar(ProposalId(InputOf(g, root).draft))
    requires Validate(InputOf(g, root)).None? && Validate(InputIn(RedactValue(g, root, {}).0)).None?
    ensures (var stored := InputIn(RedactValue(g, root, {}).0);
             && stored.outcome.key == InputOf(g, root).outcome.key
             && ProposalId(stored.draft) == ProposalId(InputOf(g, root).draft))
  {
    hide *;
    var copy, d, o := RedactValue(g, root, {}).0, At(g, root, "draft"), At(g, root, "outcome");
    AcceptedArgument(g, root);
    AcceptedOutcome(InputIn(copy));
    PublicParts();
    TreeParts(copy);
    InputParts(g, root);
    CopiedPart(g, root, "draft", "ai_proposal_id");
    CopiedPart(g, root, "outcome", "idempotency_key");
    AIDraftIsObject(Get(copy, "draft"));
    NoMembersNoRead(Get(copy, "outcome"), "decision");
    MarkerIsNoObject();
    ProposalIs(View(g, d));
    ProposalIs(Get(copy, "draft"));
    ViewGet(g, d, "ai_proposal_id");
    TextIsScalar(Peek(g, At(g, o, "idempotency_key")));
    ScalarCopied(g, At(g, d, "ai_proposal_id"), SeenAt(g, d, SeenAt(g, root, {}, "draft"), "ai_proposal_id"));
    ScalarCopied(g, At(g, o, "idempotency_key"), SeenAt(g, o, SeenAt(g, root, {}, "outcome"), "idempotency_key"));
  }

  lemma AIDraftIsObject(v: Json)
    requires IsAIDraft(v)
    ensures v.Obj?
  {
  }

  lemma MarkerIsNoObject()
    ensures !Str(CIRCULAR).Obj? && OrNull(Str(CIRCULAR)) == Str(CIRCULAR)
  {
    assert CIRCULAR[0] == '[';
  }

  lemma ProposalIs(d: Json)
    ensures ProposalId(d) == Get(d, "ai_proposal_id")
  {
    hide Get;
  }

  lemma TextIsScalar(v: Json)
    ensures v.Str? ==> Scalar(v)
  {
  }

  // ---------------------------------------------------------------- under which name an object is copied

  /** The payload copies `x` under its i-th name: that is the first name whose value leads to `x`. */
  ghost predicate CopiedInPayload(g: Graph, root: Value, i: nat, x: Id)
    requires i < 8
  {
    Reaches(g, PartValue(g, root, i), {}, x) && forall j :: 0 <= j < i ==> !Reaches(g, PartValue(g, root, j), {}, x)
  }

  /** The name under which the argument holds the object that the i-th part is read from. */
  function HolderName(i: nat): string {
    if i < 3 then "draft" else "outcome"
  }

  /** Copying the argument meets `x` before it comes to the i-th part. */
  ghost predicate MetInArgument(g: Graph, root: Value, i: nat, x: Id)
    requires i < 7 && root.Ref? && PartHolder(g, root, i).Ref?
  {
    var h := PartHolder(g, root, i);
    || x == root.id || x == h.id
    || MetInFront(g, MembersOf(g, root), {root.id}, HolderName(i), x)
    || MetInFront(g, MembersOf(g, h), {root.id, h.id}, PartKeys(g, root)[i], x)
  }

  /** The copy of the argument holds the copy of `x` under the i-th part. */
  ghost predicate CopiedInArgument(g: Graph, root: Value, i: nat, x: Id)
    requires i < 7 && root.Ref? && PartHolder(g, root, i).Ref?
  {
    Reaches(g, PartValue(g, root, i), {root.id, PartHolder(g, root, i).id}, x) && !MetInArgument(g, root, i, x)
  }

  /** The object of this name is copied where it stands: nothing in front of it leads to it. */
  ghost predicate InPlace(g: Graph, root: Value, name: string) {
    && root.Ref? && At(g, root, name).Ref? && At(g, root, name).id != root.id
    && !MetInFront(g, MembersOf(g, root), {root.id}, name, At(g, root, name).id)
  }

  /** Payload and argument copy the same objects under the i-th part. */
  ghost predicate PartAlike(g: Graph, root: Value, i: nat)
    requires i < 7
  {
    root.Ref? && PartHolder(g, root, i).Ref?
    && forall x :: CopiedInPayload(g, root, i, x) <==> CopiedInArgument(g, root, i, x)
  }

  /** Draft and outcome are copied where they stand, and each object under the same part in payload and argument. */
  ghost predicate CopiedAlike(g: Graph, root: Value) {
    && InPlace(g, root, "draft") && InPlace(g, root, "outcome")
    && forall i :: 0 <= i < 7 ==> PartAlike(g, root, i)
  }

  // ---------------------------------------------------------------- the recursion meets what is in front

  lemma PropertyMeets(g: Graph, m: Member<Value>, seen: set<Id>, x: Id)
    requires Closed(g) && Wellformed(g, m.value)
    ensures x in RedactProperty(g, m, seen).1 <==> x in seen || (!SecretKey(m.key) && Reaches(g, m.value, seen, x))
    ensures ClosedBut(g, RedactProperty(g, m, seen).1, seen) && seen <= RedactProperty(g, m, seen).1
  {
    hide *;
    PropertyIs(g, m, seen);
    MetIffReached(g, m.value, seen, x);
    MetIsClosed(g, m.value, seen);
    NothingNew(g, seen);
  }

  lemma FrontTail(ms: seq<Member<Value>>, key: string, i: int)
    requires ms != []
    ensures ms[0].key == key ==> !InFront(ms, i, key)
    ensures ms[0].key != key && i > 0 ==> (InFront(ms, i, key) <==> InFront(ms[1..], i - 1, key))
    ensures ms[0].key != key ==> InFront(ms, 0, key)
  {
    if ms[0].key != key && i > 0 && InFront(ms[1..], i - 1, key) {
      forall j | 0 <= j <= i
        ensures ms[j].key != key
      {
        assert j > 0 ==> ms[1..][j - 1] == ms[j];
      }
    }
    if InFront(ms, i, key) && i > 0 {
      forall j | 0 <= j <= i - 1
        ensures ms[1..][j].key != key
      {
        assert ms[1..][j] == ms[j + 1];
      }
    }
  }

  lemma {:induction false} MetInFrontTail(g: Graph, ms: seq<Member<Value>>, avoid: set<Id>, key: string, x: Id)
    requires ms != [] && ms[0].key != key
    ensures MetInFront(g, ms, avoid, key, x)
       <==> (!SecretKey(ms[0].key) && Reaches(g, ms[0].value, avoid, x)) || MetInFront(g, ms[1..], avoid, key, x)
  {
    hide Reaches, SecretKey;
    if MetInFront(g, ms, avoid, key, x) {
      var i :| InFront(ms, i, key) && !SecretKey(ms[i].key) && Reaches(g, ms[i].value, avoid, x);
      FrontTail(ms, key, i);
      assert i > 0 ==> ms[1..][i - 1] == ms[i];
    }
    if !SecretKey(ms[0].key) && Reaches(g, ms[0].value, avoid, x) {
      FrontTail(ms, key, 0);
    }
    if MetInFront(g, ms[1..], avoid, key, x) {
      var i :| InFront(ms[1..], i, key) && !SecretKey(ms[1..][i].key) && Reaches(g, ms[1..][i].value, avoid, x);
      FrontTail(ms, key, i + 1);
      assert ms[1..][i] == ms[i + 1];
    }
  }

  lemma NothingInFront(g: Graph, ms: seq<Member<Value>>, avoid: set<Id>, key: string, x: Id)
    requires ms == [] || ms[0].key == key
    ensures !MetInFront(g, ms, avoid, key, x)
  {
    hide Reaches, SecretKey;
  }

  /** What the recursion meets before a member is what the members in front of it lead to. */
  lemma {:induction false} SeenBeforeIff(g: Graph, ms: seq<Member<Value>>, seen: set<Id>, key: string, x: Id)
    requires Closed(g) && WellformedMembers(g, ms)
    ensures x in SeenBefore(g, ms, seen, key) <==> x in seen || MetInFront(g, ms, seen, key, x)
    ensures ClosedBut(g, SeenBefore(g, ms, seen, key), seen)
    decreases |ms|
  {
    hide *;
    SeenBeforeIs(g, ms, seen, key);
    if ms == [] || ms[0].key == key {
      NothingInFront(g, ms, seen, key, x);
      NothingNew(g, seen);
    } else {
      var next := RedactProperty(g, ms[0], seen).1;
      PropertyMeets(g, ms[0], seen, x);
      SeenBeforeIff(g, ms[1..], next, key, x);
      ClosedOn(g, seen, next, SeenBefore(g, ms, seen, key));
      MetInFrontTail(g, ms, seen, key, x);
      FrontPast(g, ms[1..], seen, next, key, x);
    }
  }

  lemma SeenBeforeIs(g: Graph, ms: seq<Member<Value>>, seen: set<Id>, key: string)
    requires Closed(g) && WellformedMembers(g, ms)
    ensures ms != [] ==> Wellformed(g, ms[0].value) && WellformedMembers(g, ms[1..])
    ensures SeenBefore(g, ms, seen, key)
         == if ms == [] || ms[0].key == key then seen else SeenBefore(g, ms[1..], RedactProperty(g, ms[0], seen).1, key)
  {
    hide Closed, Wellformed, RedactProperty;
  }

  lemma FrontPast(g: Graph, ms: seq<Member<Value>>, seen: set<Id>, met: set<Id>, key: string, x: Id)
    requires seen <= met && ClosedBut(g, met, seen)
    ensures x !in met ==> (MetInFront(g, ms, met, key, x) <==> MetInFront(g, ms, seen, key, x))
    ensures x in met ==> !MetInFront(g, ms, met, key, x)
  {
    hide Reaches, SecretKey, ClosedBut;
    if MetInFront(g, ms, met, key, x) {
      var i :| InFront(ms, i, key) && !SecretKey(ms[i].key) && Reaches(g, ms[i].value, met, x);
      ReachesPast(g, ms[i].value, seen, met, x);
    }
    if x !in met && MetInFront(g, ms, seen, key, x) {
      var i :| InFront(ms, i, key) && !SecretKey(ms[i].key) && Reaches(g, ms[i].value, seen, x);
      ReachesPast(g, ms[i].value, seen, met, x);
    }
  }

  /** The nodes met before the i-th part in the argument. */
  function ArgumentSeen(g: Graph, root: Value, i: nat): set<Id>
    requires Closed(g) && i < 7
  {
    SeenAt(g, PartHolder(g, root, i), SeenAt(g, root, {}, HolderName(i)), PartKeys(g, root)[i])
  }

  lemma HolderIs(g: Graph, root: Value, i: nat)
    requires i < 7
    ensures PartHolder(g, root, i) == At(g, root, HolderName(i))
    ensures !SecretKey(HolderName(i)) && !SecretKey(PartKeys(g, root)[i])
  {
    hide SecretKey, At;
    PublicParts();
  }

  lemma ArgumentSeenIs(g: Graph, root: Value, i: nat)
    requires Closed(g) && i < 7
    ensures ArgumentSeen(g, root, i)
         == SeenAt(g, PartHolder(g, root, i), SeenAt(g, root, {}, HolderName(i)), PartKeys(g, root)[i])
  {
    hide SeenAt, PartHolder, PartKeys;
  }

  lemma MetInArgumentIs(g: Graph, root: Value, i: nat, x: Id)
    requires i < 7 && root.Ref? && PartHolder(g, root, i).Ref?
    ensures (var h := PartHolder(g, root, i);
             MetInArgument(g, root, i, x)
             <==> || x == root.id || x == h.id
                  || MetInFront(g, MembersOf(g, root), {root.id}, HolderName(i), x)
                  || MetInFront(g, MembersOf(g, h), {root.id, h.id}, PartKeys(g, root)[i], x))
  {
    hide MetInFront, PartHolder, PartKeys, MembersOf;
  }

  lemma TwoNodes(a: Id, b: Id, met: set<Id>)
    requires a in met
    ensures {a, b} <= met + {b} && {} + {a} == {a}
  {
  }

  lemma ClosedButTwo(g: Graph, a: Id, b: Id, first: set<Id>, met: set<Id>)
    requires ClosedBut(g, first, {a}) && ClosedBut(g, met, first + {b}) && first <= met
    ensures ClosedBut(g, met, {a, b}) && ClosedBut(g, first + {b}, {a, b})
  {
    hide Links;
    assert forall x, y :: x in met && x !in {a, b} && Links(g, x, y) && x in first ==> y in met;
  }

  lemma ArgumentSeenIff(g: Graph, root: Value, i: nat, x: Id)
    requires Closed(g) && i < 7 && root.Ref? && PartHolder(g, root, i).Ref?
    ensures x in ArgumentSeen(g, root, i) <==> MetInArgument(g, root, i, x)
    ensures (var pair := {root.id, PartHolder(g, root, i).id};
             pair <= ArgumentSeen(g, root, i) && ClosedBut(g, ArgumentSeen(g, root, i), pair))
  {
    hide *;
    var h, name, key := PartHolder(g, root, i), HolderName(i), PartKeys(g, root)[i];
    var first, met := SeenAt(g, root, {}, name), ArgumentSeen(g, root, i);
    ArgumentSeenIs(g, root, i);
    MetInArgumentIs(g, root, i, x);
    SeenAtIs(g, root, {}, name);
    SeenAtIs(g, h, first, key);
    SeenBeforeIff(g, MembersOf(g, root), {} + {root.id}, name, x);
    SeenBeforeIff(g, MembersOf(g, h), first + {h.id}, key, x);
    SeenBeforeIff(g, MembersOf(g, root), {} + {root.id}, name, root.id);
    TwoNodes(root.id, h.id, first);
    ClosedButTwo(g, root.id, h.id, first, met);
    FrontPast(g, MembersOf(g, h), {root.id, h.id}, first + {h.id}, key, x);
  }

  /** So the copy of the argument holds the copy of exactly those objects. */
  lemma CopiedInArgumentIff(g: Graph, root: Value, i: nat, x: Id)
    requires Closed(g) && i < 7 && root.Ref? && PartHolder(g, root, i).Ref?
    ensures CopiedInArgument(g, root, i, x) <==> Reaches(g, PartValue(g, root, i), ArgumentSeen(g, root, i), x)
  {
    hide *;
    ArgumentSeenIff(g, root, i, x);
    CopiedInArgumentIs(g, root, i, x);
    ReachesPast(g, PartValue(g, root, i), {root.id, PartHolder(g, root, i).id}, ArgumentSeen(g, root, i), x);
  }

  lemma CopiedInArgumentIs(g: Graph, root: Value, i: nat, x: Id)
    requires i < 7 && root.Ref? && PartHolder(g, root, i).Ref?
    ensures CopiedInArgument(g, root, i, x)
       <==> Reaches(g, PartValue(g, root, i), {root.id, PartHolder(g, root, i).id}, x) && !MetInArgument(g, root, i, x)
  {
    hide Reaches, PartValue, PartHolder, MetInArgument;
  }

  // ---------------------------------------------------------------- the payload

  /** The nodes met before the i-th member of the payload. */
  function PayloadSeen(g: Graph, root: Value, i: nat): set<Id>
    requires Closed(g) && i < 8
  {
    PartsAreWellformed(g, root);
    SeenBefore(g, PayloadParts(g, root), {}, PAYLOAD_NAMES[i])
  }

  lemma PayloadSeenIs(g: Graph, root: Value, i: nat)
    requires Closed(g) && i < 8
    ensures WellformedMembers(g, PayloadParts(g, root))
    ensures PayloadSeen(g, root, i) == SeenBefore(g, PayloadParts(g, root), {}, PAYLOAD_NAMES[i])
  {
    hide SeenBefore, PayloadParts;
    PartsAreWellformed(g, root);
  }

  lemma PayloadNames()
    ensures |PAYLOAD_NAMES| == 8
    ensures forall i, j :: 0 <= i < j < 8 ==> PAYLOAD_NAMES[i] != PAYLOAD_NAMES[j]
    ensures forall i :: 0 <= i < 8 ==> !SecretKey(PAYLOAD_NAMES[i])
  {
    var n := PAYLOAD_NAMES;
    hide SecretKey;
    PayloadProposalIsPublic();
    PayloadDraftIsPublic();
    PayloadKeyIsPublic();
    PublicParts();
    assert |n[0]| == 11 && |n[1]| == 8 && |n[2]| == 21 && |n[3]| == 8 && |n[4]| == 6 && |n[5]| == 5 && |n[6]| == 15;
    assert |n[7]| == 5 && n[1][1] == 'r' && n[3][1] == 'e' && n[5][0] == 'p' && n[7][0] == 'a';
  }

  lemma PartsInFront(g: Graph, root: Value, i: nat, j: int)
    requires Closed(g) && i < 8
    ensures InFront(PayloadParts(g, root), j, PAYLOAD_NAMES[i]) <==> 0 <= j < i
  {
    hide PartValue;
    PayloadNames();
    PartsAreWellformed(g, root);
    hide PayloadParts, SecretKey;
  }

  lemma CopiedInPayloadIff(g: Graph, root: Value, i: nat, x: Id)
    requires Closed(g) && i < 8
    ensures CopiedInPayload(g, root, i, x) <==> Reaches(g, PartValue(g, root, i), PayloadSeen(g, root, i), x)
  {
    hide *;
    PayloadNames();
    var ms, key := PayloadParts(g, root), PAYLOAD_NAMES[i];
    PayloadSeenIs(g, root, i);
    SeenBeforeIff(g, ms, {}, key, x);
    ReachesPast(g, PartValue(g, root, i), {}, PayloadSeen(g, root, i), x);
    EarlierParts(g, root, i, x);
    CopiedInPayloadIs(g, root, i, x);
  }

  lemma EarlierParts(g: Graph, root: Value, i: nat, x: Id)
    requires Closed(g) && i < 8
    ensures MetInFront(g, PayloadParts(g, root), {}, PAYLOAD_NAMES[i], x)
       <==> exists j :: 0 <= j < i && Reaches(g, PartValue(g, root, j), {}, x)
  {
    var ms, key := PayloadParts(g, root), PAYLOAD_NAMES[i];
    PayloadNames();
    PartsAreWellformed(g, root);
    hide Reaches, PartValue, PayloadParts, SecretKey, InFront;
    if MetInFront(g, ms, {}, key, x) {
      var j :| InFront(ms, j, key) && 0 <= j < |ms| && !SecretKey(ms[j].key) && Reaches(g, ms[j].value, {}, x);
      PartsInFront(g, root, i, j);
    }
    if exists j :: 0 <= j < i && Reaches(g, PartValue(g, root, j), {}, x) {
      var j :| 0 <= j < i && Reaches(g, PartValue(g, root, j), {}, x);
      PartsInFront(g, root, i, j);
      assert InFront(ms, j, key) && ms[j] == Member(PAYLOAD_NAMES[j], PartValue(g, root, j));
    }
  }

  lemma CopiedInPayloadIs(g: Graph, root: Value, i: nat, x: Id)
    requires i < 8
    ensures CopiedInPayload(g, root, i, x)
       <==> Reaches(g, PartValue(g, root, i), {}, x)
            && !exists j :: 0 <= j < i && Reaches(g, PartValue(g, root, j), {}, x)
  {
    hide Reaches, PartValue;
  }

  // ---------------------------------------------------------------- the payload of the stored request

  lemma OrCopied(g: Graph, v: Value, seen: set<Id>)
    requires Heap(g) && Wellformed(g, v) && DatesUnseen(g, seen)
    ensures RedactValue(g, Or(v), seen).0 == OrNull(RedactValue(g, v, seen).0)
    ensures Truthy(RedactValue(g, v, seen).0) <==> v.Ref? || Truthy(v.j)
    ensures Wellformed(g, Or(v))
  {
    MarkerIsNoObject();
    hide RedactValues, RedactProperties;
  }

  lemma {:induction false} TidyFind(ms: seq<Member<Json>>, key: string)
    requires forall i :: 0 <= i < |ms| ==> Unambiguous(ms[i].value)
    ensures Find(ms, key).Some? ==> Unambiguous(Find(ms, key).value)
  {
    hide Unambiguous;
    if ms != [] {
      TidyFind(ms[1..], key);
    }
  }

  lemma TidyGet(v: Json, key: string)
    requires Unambiguous(v)
    ensures Unambiguous(Get(v, key)) && Unambiguous(OrNull(v))
  {
    TidyFind(Members(v), key);
  }

  lemma StoredPart(v: Json, key: string)
    requires Masked(v) && Unambiguous(v) && !SecretKey(key)
    ensures Masked(Get(v, key)) && Unambiguous(Get(v, key))
    ensures Redact(OrNull(Get(v, key))) == OrNull(Get(v, key)) && Unambiguous(OrNull(Get(v, key)))
  {
    MaskedGet(v, key);
    TidyGet(v, key);
    TidyGet(Get(v, key), key);
    hide SecretKey, Masked, Get, Unambiguous;
  }

  lemma TextPart(s: string)
    ensures Redact(OrNull(Str(s))) == OrNull(Str(s)) && Unambiguous(OrNull(Str(s)))
  {
  }

  lemma PayloadValuesAre(input: Input)
    ensures (var vs, names := PayloadValues(input), DraftNames(input.draft);
             && |vs| == 8 && vs[0] == names.0 && vs[1] == names.1 && vs[2] == names.2
             && vs[3] == OrNull(Str(input.outcome.decision)) && vs[4] == OrNull(input.outcome.reason)
             && vs[5] == OrNull(input.outcome.patch) && vs[6] == OrNull(input.outcome.metadata)
             && vs[7] == OrNull(Str(input.actor)))
  {
    hide DraftNames, OrNull;
  }

  lemma DraftNamesAre(d: Json)
    ensures DraftNames(d).0 == OrNull(Get(d, "ai_proposal_id")) && DraftNames(d).2 == OrNull(Get(d, "idempotency_key"))
    ensures DraftNames(d).1 == if Truthy(Get(d, "je_id")) then Get(d, "je_id") else OrNull(Get(d, "je_number"))
  {
    hide Get;
  }

  lemma TruthyStays(v: Json)
    ensures Truthy(v) ==> OrNull(v) == v
  {
  }

  /** The values that recovery builds the payload from are redacted already. */
  lemma StoredValues(g: Graph, root: Value)
    requires Heap(g) && Closed(g) && Wellformed(g, root)
    ensures (var vs := PayloadValues(InputIn(RedactValue(g, root, {}).0));
             |vs| == 8 && forall i :: 0 <= i < 8 ==> Redact(vs[i]) == vs[i] && Unambiguous(vs[i]))
  {
    hide *;
    var v := RedactValue(g, root, {}).0;
    var stored := InputIn(v);
    CopiesEachNodeOnce(g, root, {});
    CopyIsTidy(g, root, {});
    PublicParts();
    TreeParts(v);
    PayloadValuesAre(stored);
    DraftNamesAre(stored.draft);
    StoredPart(v, "draft");
    StoredPart(v, "outcome");
    StoredPart(Get(v, "draft"), "ai_proposal_id");
    StoredPart(Get(v, "draft"), "je_id");
    StoredPart(Get(v, "draft"), "je_number");
    StoredPart(Get(v, "draft"), "idempotency_key");
    TruthyStays(Get(Get(v, "draft"), "je_id"));
    StoredPart(Get(v, "outcome"), "reason");
    StoredPart(Get(v, "outcome"), "patch");
    StoredPart(Get(v, "outcome"), "review_metadata");
    TextPart(stored.outcome.decision);
    TextPart(stored.actor);
  }

  lemma PayloadIs(input: Input)
    ensures |PayloadValues(input)| == |PAYLOAD_NAMES|
    ensures Payload(input) == Obj(RedactMembers(Named(PAYLOAD_NAMES, PayloadValues(input))))
  {
    hide PayloadValues, RedactMembers, Named;
    PayloadValuesAre(input);
  }

  lemma {:induction false} NamedStays(names: seq<string>, vs: seq<Json>)
    requires |names| == |vs| && forall i :: 0 <= i < |vs| ==> !SecretKey(names[i]) && Redact(vs[i]) == vs[i]
    ensures RedactMembers(Named(names, vs)) == Named(names, vs)
  {
    hide SecretKey, Redact;
    if names != [] {
      NamedStays(names[1..], vs[1..]);
    }
  }

  lemma StoredPayload(g: Graph, root: Value)
    requires Heap(g) && Closed(g) && Wellformed(g, root)
    ensures (var stored := InputIn(RedactValue(g, root, {}).0);
             && |PayloadValues(stored)| == 8 == |PAYLOAD_NAMES|
             && Payload(stored) == Obj(Named(PAYLOAD_NAMES, PayloadValues(stored)))
             && Unambiguous(Payload(stored)))
  {
    hide *;
    var stored := InputIn(RedactValue(g, root, {}).0);
    PayloadNames();
    StoredValues(g, root);
    PayloadIs(stored);
    NamedStays(PAYLOAD_NAMES, PayloadValues(stored));
    NamedIsTidy(PAYLOAD_NAMES, PayloadValues(stored));
  }

  lemma NamedIsTidy(names: seq<string>, vs: seq<Json>)
    requires |names| == |vs| && (forall i, j :: 0 <= i < j < |names| ==> names[i] != names[j])
    requires forall i :: 0 <= i < |vs| ==> Unambiguous(vs[i])
    ensures Unambiguous(Obj(Named(names, vs)))
  {
    hide Named;
  }

  // ---------------------------------------------------------------- the payload of the call

  /** The i-th value of the payload as it is redacted. */
  function Sent(g: Graph, root: Value, i: nat): Json
    requires Closed(g) && i < 8
  {
    PartsAreWellformed(g, root);
    RedactValue(g, PartValue(g, root, i), PayloadSeen(g, root, i)).0
  }

  lemma SentIs(g: Graph, root: Value, i: nat)
    requires Closed(g) && i < 8
    ensures Wellformed(g, PartValue(g, root, i))
    ensures Sent(g, root, i) == RedactValue(g, PartValue(g, root, i), PayloadSeen(g, root, i)).0
  {
    hide RedactValue, PayloadSeen, PartValue, Wellformed, Closed;
    PartsAreWellformed(g, root);
  }

  lemma SentMember(g: Graph, root: Value, i: nat)
    requires Closed(g) && i < 8
    ensures SentMembers(g, root)[i] == Member(PAYLOAD_NAMES[i], Sent(g, root, i))
  {
    hide *;
    PayloadNames();
    var ms := PayloadParts(g, root);
    PartsAreWellformed(g, root);
    SentIs(g, root, i);
    PayloadSeenIs(g, root, i);
    CopiedMember(g, ms, {}, PAYLOAD_NAMES[i]);
    UniqueParts(g, root);
    FindAt(ms, i);
    SentAre(g, root);
    NamesUnique(g, ms, {});
    FindAt(SentMembers(g, root), i);
  }

  lemma SentAre(g: Graph, root: Value)
    requires Closed(g)
    ensures WellformedMembers(g, PayloadParts(g, root))
    ensures SentMembers(g, root) == RedactProperties(g, PayloadParts(g, root), {}).0
  {
    hide RedactProperties, PayloadParts;
    PartsAreWellformed(g, root);
  }

  lemma UniqueParts(g: Graph, root: Value)
    requires Closed(g)
    ensures UniqueKeys(PayloadParts(g, root))
  {
    hide PartValue, SecretKey;
    PayloadNames();
    PartsAreWellformed(g, root);
    hide PayloadParts;
  }

  lemma SentIsTidy(g: Graph, root: Value)
    requires Heap(g) && Closed(g)
    ensures Unambiguous(Obj(SentMembers(g, root))) && UniqueKeys(SentMembers(g, root))
  {
    hide RedactProperties, PayloadParts, WellformedMembers, Heap, Closed, SentMembers;
    SentAre(g, root);
    PartsAreWellformed(g, root);
    UniqueParts(g, root);
    MemberCopiesTidy(g, PayloadParts(g, root), {});
    NamesUnique(g, PayloadParts(g, root), {});
  }

  /** Two objects with the same names are the same up to order exactly when they are so name by name. */
  lemma SameNamedIff(a: seq<Member<Json>>, b: seq<Member<Json>>)
    requires |a| == |b| && UniqueKeys(b) && forall i :: 0 <= i < |a| ==> a[i].key == b[i].key
    ensures SameUpToOrder(Obj(a), Obj(b)) <==> forall i :: 0 <= i < |a| ==> SameUpToOrder(a[i].value, b[i].value)
  {
    hide Find;
    forall i | 0 <= i < |a|
      ensures Find(b, a[i].key) == Some(b[i].value)
    {
      FindAt(b, i);
    }
  }

  /** The recomputed text is the stored one exactly when the two payloads agree value by value. */
  lemma SameTextIff(g: Graph, root: Value)
    requires Heap(g) && Closed(g) && Wellformed(g, root)
    ensures (var vs := PayloadValues(InputIn(RedactValue(g, root, {}).0));
             && |vs| == 8
             && (PayloadText(RequestOf(g, root).stored) == RequestOf(g, root).canonical
                 <==> forall i :: 0 <= i < 8 ==> SameUpToOrder(vs[i], Sent(g, root, i))))
  {
    hide *;
    PayloadNames();
    var stored, b := InputIn(RedactValue(g, root, {}).0), SentMembers(g, root);
    RequestIs(g, root);
    StoredPayload(g, root);
    var a := Named(PAYLOAD_NAMES, PayloadValues(stored));
    SentIsTidy(g, root);
    forall i | 0 <= i < 8
      ensures b[i] == Member(PAYLOAD_NAMES[i], Sent(g, root, i))
    {
      SentMember(g, root, i);
    }
    SameNamedIff(a, b);
    PayloadTextIs(stored);
    TextIdentifiesValue(Obj(a), Obj(b));
  }

  lemma PayloadTextIs(input: Input)
    ensures PayloadText(input) == CanonicalText(Payload(input))
  {
    hide CanonicalText, Payload;
  }

  lemma RecoveryErrorIs(row: Row)
    ensures RecoveryError(row).None? <==> row.canonical != "" && row.canonical == CanonicalText(Payload(row.input))
  {
    hide CanonicalText, Payload;
  }

  lemma NewRowIs(req: Request, t: Times)
    ensures NewRow(req, t).canonical == req.canonical && NewRow(req, t).input == req.stored
  {
  }

  // ---------------------------------------------------------------- when recovery reports a conflict

  /** What `h` is when the argument passes the first check. */
  lemma AcceptedHolder(g: Graph, root: Value, i: nat)
    requires Closed(g) && Wellformed(g, root) && Validate(InputOf(g, root)).None? && i < 7
    ensures root.Ref? && root.id in g && g[root.id].ObjectNode?
    ensures (var h := PartHolder(g, root, i); h == At(g, root, HolderName(i)) && h.Ref? && h.id in g && g[h.id].ObjectNode?)
    ensures !SecretKey(HolderName(i)) && !SecretKey(PartKeys(g, root)[i])
  {
    hide *;
    AcceptedArgument(g, root);
    HolderIs(g, root, i);
    HolderNameIs(i);
  }

  lemma HolderNameIs(i: nat)
    ensures HolderName(i) == if i < 3 then "draft" else "outcome"
  {
  }

  lemma InPlaceIff(g: Graph, root: Value, name: string)
    requires Closed(g) && root.Ref? && At(g, root, name).Ref?
    ensures InPlace(g, root, name) <==> At(g, root, name).id !in SeenAt(g, root, {}, name)
  {
    hide *;
    var x := At(g, root, name).id;
    SeenAtIs(g, root, {}, name);
    SeenBeforeIff(g, MembersOf(g, root), {} + {root.id}, name, x);
    assert {} + {root.id} == {root.id};
    InPlaceIs(g, root, name);
  }

  lemma InPlaceIs(g: Graph, root: Value, name: string)
    requires root.Ref? && At(g, root, name).Ref?
    ensures InPlace(g, root, name)
       <==> At(g, root, name).id != root.id && !MetInFront(g, MembersOf(g, root), {root.id}, name, At(g, root, name).id)
  {
    hide MetInFront, MembersOf, At;
  }

  lemma PartValueIs(g: Graph, root: Value, i: nat)
    requires i < 8
    ensures PartValue(g, root, i) == Or(At(g, PartHolder(g, root, i), PartKeys(g, root)[i]))
    ensures PartKeys(g, root)[0] == "ai_proposal_id" && PartKeys(g, root)[1] == DraftIdKey(g, At(g, root, "draft"))
    ensures PartKeys(g, root)[2] == "idempotency_key" && PartKeys(g, root)[3] == "decision" && PartKeys(g, root)[4] == "reason"
    ensures PartKeys(g, root)[5] == "patch" && PartKeys(g, root)[6] == "review_metadata" && PartKeys(g, root)[7] == "actor"
  {
    hide Or, At, PartHolder, DraftIdKey;
  }

  /** The i-th member of its holder in the copy of the argument, as the payload takes it. */
  lemma StoredCopy(g: Graph, root: Value, i: nat, key: string)
    requires Heap(g) && Closed(g) && Wellformed(g, root) && Validate(InputOf(g, root)).None? && i < 7 && !SecretKey(key)
    requires (var h := PartHolder(g, root, i); h.Ref? && h.id !in SeenAt(g, root, {}, HolderName(i)))
    ensures (var h, before := PartHolder(g, root, i), SeenAt(g, root, {}, HolderName(i));
             var copy := Get(Get(RedactValue(g, root, {}).0, HolderName(i)), key);
             && Wellformed(g, At(g, h, key)) && Wellformed(g, Or(At(g, h, key)))
             && OrNull(copy) == RedactValue(g, Or(At(g, h, key)), SeenAt(g, h, before, key)).0
             && copy == RedactValue(g, At(g, h, key), SeenAt(g, h, before, key)).0
             && (Truthy(copy) <==> At(g, h, key).Ref? || Truthy(At(g, h, key).j))
             && DatesUnseen(g, SeenAt(g, h, before, key)))
  {
    hide *;
    var h, before := PartHolder(g, root, i), SeenAt(g, root, {}, HolderName(i));
    AcceptedHolder(g, root, i);
    AtIsWellformed(g, h, key);
    CopiedPart(g, root, HolderName(i), key);
    OrCopied(g, At(g, h, key), SeenAt(g, h, before, key));
  }

  lemma DraftIdKeyIs(g: Graph, d: Value)
    ensures DraftIdKey(g, d) == if At(g, d, "je_id").Ref? || Truthy(At(g, d, "je_id").j) then "je_id" else "je_number"
  {
    hide At;
  }

  lemma StoredDraftPart(g: Graph, root: Value, i: nat)
    requires Heap(g) && Closed(g) && Wellformed(g, root) && Validate(InputOf(g, root)).None? && i < 3
    requires At(g, root, "draft").Ref? && At(g, root, "draft").id !in SeenAt(g, root, {}, "draft")
    ensures (var names := DraftNames(Get(RedactValue(g, root, {}).0, "draft"));
             && Wellformed(g, PartValue(g, root, i))
             && RedactValue(g, PartValue(g, root, i), ArgumentSeen(g, root, i)).0
                == if i == 0 then names.0 else if i == 1 then names.1 else names.2)
    ensures DatesUnseen(g, ArgumentSeen(g, root, i))
  {
    hide *;
    var d := At(g, root, "draft");
    HolderNameIs(i);
    HolderIs(g, root, i);
    PublicParts();
    PartValueIs(g, root, i);
    ArgumentSeenIs(g, root, i);
    DraftNamesAre(Get(RedactValue(g, root, {}).0, "draft"));
    DraftIdKeyIs(g, d);
    StoredCopy(g, root, i, "ai_proposal_id");
    StoredCopy(g, root, i, "je_id");
    StoredCopy(g, root, i, "je_number");
    StoredCopy(g, root, i, "idempotency_key");
    TruthyStays(Get(Get(RedactValue(g, root, {}).0, "draft"), "je_id"));
  }

  lemma StoredOutcomePart(g: Graph, root: Value, i: nat)
    requires Heap(g) && Closed(g) && Wellformed(g, root) && Validate(InputOf(g, root)).None? && 3 <= i < 7
    requires At(g, root, "outcome").Ref? && At(g, root, "outcome").id !in SeenAt(g, root, {}, "outcome")
    ensures Wellformed(g, PartValue(g, root, i)) && DatesUnseen(g, ArgumentSeen(g, root, i))
    ensures RedactValue(g, PartValue(g, root, i), ArgumentSeen(g, root, i)).0
         == PayloadValues(InputIn(RedactValue(g, root, {}).0))[i]
  {
    hide *;
    var v, o := RedactValue(g, root, {}).0, At(g, root, "outcome");
    HolderNameIs(i);
    HolderIs(g, root, i);
    PublicParts();
    PartValueIs(g, root, i);
    ArgumentSeenIs(g, root, i);
    TreeParts(v);
    PayloadValuesAre(InputIn(v));
    AcceptedArgument(g, root);
    StoredCopy(g, root, i, PartKeys(g, root)[i]);
    if i == 3 {
      TextIsScalar(Peek(g, At(g, o, "decision")));
      ScalarCopied(g, At(g, o, "decision"), ArgumentSeen(g, root, i));
      TextOfText(Peek(g, At(g, o, "decision")));
    }
  }

  lemma TextOfText(v: Json)
    ensures v.Str? ==> Str(TextOf(v)) == v
    ensures TextOf(v) != "" ==> v.Str?
  {
  }

  lemma StoredPartIs(g: Graph, root: Value, i: nat)
    requires Heap(g) && Closed(g) && Wellformed(g, root) && Validate(InputOf(g, root)).None? && i < 7
    requires InPlace(g, root, HolderName(i))
    ensures Wellformed(g, PartValue(g, root, i)) && DatesUnseen(g, ArgumentSeen(g, root, i))
    ensures (var vs := PayloadValues(InputIn(RedactValue(g, root, {}).0));
             |vs| == 8 && vs[i] == RedactValue(g, PartValue(g, root, i), ArgumentSeen(g, root, i)).0)
  {
    hide *;
    AcceptedHolder(g, root, i);
    HolderNameIs(i);
    InPlaceIff(g, root, HolderName(i));
    PayloadValuesAre(InputIn(RedactValue(g, root, {}).0));
    TreeParts(RedactValue(g, root, {}).0);
    if i < 3 {
      StoredDraftPart(g, root, i);
    } else {
      StoredOutcomePart(g, root, i);
    }
  }

  lemma PayloadSeenUndated(g: Graph, root: Value, i: nat)
    requires Closed(g) && i < 8
    ensures DatesUnseen(g, PayloadSeen(g, root, i))
  {
    hide *;
    PayloadNames();
    PayloadSeenIs(g, root, i);
    DatesUnseenIs(g, {});
    DatesUnseenBefore(g, PayloadParts(g, root), {}, PAYLOAD_NAMES[i]);
  }

  /** A part reads back the same exactly when payload and argument copy the same objects under it. */
  lemma PartSameIff(g: Graph, root: Value, i: nat)
    requires Heap(g) && Closed(g) && Wellformed(g, root) && Validate(InputOf(g, root)).None? && i < 7
    requires InPlace(g, root, HolderName(i)) && root.Ref? && PartHolder(g, root, i).Ref?
    ensures (var vs := PayloadValues(InputIn(RedactValue(g, root, {}).0));
             |vs| == 8
             && (SameUpToOrder(vs[i], Sent(g, root, i))
                 <==> forall x :: CopiedInPayload(g, root, i, x) <==> CopiedInArgument(g, root, i, x)))
  {
    hide *;
    var v, s, t := PartValue(g, root, i), ArgumentSeen(g, root, i), PayloadSeen(g, root, i);
    StoredPartIs(g, root, i);
    SentIs(g, root, i);
    PayloadSeenUndated(g, root, i);
    SameCopyIff(g, v, s, t);
    forall x
      ensures x in News(g, v, s) <==> CopiedInArgument(g, root, i, x)
      ensures x in News(g, v, t) <==> CopiedInPayload(g, root, i, x)
    {
      NewsIff(g, v, s, x);
      NewsIff(g, v, t, x);
      CopiedInArgumentIff(g, root, i, x);
      CopiedInPayloadIff(g, root, i, x);
    }
  }

  lemma NewsIff(g: Graph, v: Value, seen: set<Id>, x: Id)
    requires Closed(g) && Wellformed(g, v)
    ensures x in News(g, v, seen) <==> Reaches(g, v, seen, x)
  {
    hide RedactValue, Reaches, Closed;
    MetIffReached(g, v, seen, x);
  }

  lemma ActorReadsBack(g: Graph, root: Value)
    requires Heap(g) && Closed(g) && Wellformed(g, root) && Validate(InputOf(g, root)).None?
    ensures (var vs := PayloadValues(InputIn(RedactValue(g, root, {}).0));
             |vs| == 8 && SameUpToOrder(vs[7], Sent(g, root, 7)))
  {
    hide *;
    var v, a := RedactValue(g, root, {}).0, At(g, root, "actor");
    AcceptedArgument(g, root);
    PublicParts();
    TreeParts(v);
    PayloadValuesAre(InputIn(v));
    InputParts(g, root);
    CopiedAt(g, root, {}, "actor");
    DatesUnseenIs(g, {} + {root.id});
    DatesUnseenBefore(g, MembersOf(g, root), {} + {root.id}, "actor");
    TextIsScalar(Peek(g, a));
    TextOfText(Peek(g, a));
    ScalarCopied(g, a, SeenBefore(g, MembersOf(g, root), {} + {root.id}, "actor"));
    SentIs(g, root, 7);
    PartValueIs(g, root, 7);
    HolderOfActor(g, root);
    PayloadSeenUndated(g, root, 7);
    OrCopied(g, a, PayloadSeen(g, root, 7));
    ScalarCopied(g, a, PayloadSeen(g, root, 7));
    TextPart(InputIn(v).actor);
    SameAsItself(OrNull(Str(InputIn(v).actor)));
  }

  lemma HolderOfActor(g: Graph, root: Value)
    ensures PartHolder(g, root, 7) == root
  {
  }

  /** A draft or an outcome that was met before is stored as the marker, and its names are gone. */
  lemma OutOfPlaceDiffers(g: Graph, root: Value, name: string)
    requires Heap(g) && Closed(g) && Wellformed(g, root) && Validate(InputOf(g, root)).None?
    requires (name == "draft" || name == "outcome") && !InPlace(g, root, name)
    ensures (var vs := PayloadValues(InputIn(RedactValue(g, root, {}).0));
             |vs| == 8 && exists i :: 0 <= i < 8 && !SameUpToOrder(vs[i], Sent(g, root, i)))
  {
    hide *;
    var v := RedactValue(g, root, {}).0;
    var vs := PayloadValues(InputIn(v));
    var i := if name == "draft" then 0 else 3;
    AcceptedArgument(g, root);
    PublicParts();
    AcceptedHolder(g, root, i);
    HolderNameIs(i);
    InPlaceIff(g, root, name);
    PartValueIs(g, root, i);
    CopiedPart(g, root, name, PartKeys(g, root)[i]);
    TreeParts(v);
    PayloadValuesAre(InputIn(v));
    DraftNamesAre(Get(v, "draft"));
    MarkerIsNoObject();
    NoMembersNoRead(Str(CIRCULAR), PartKeys(g, root)[i]);
    NothingIsNull();
    SentIs(g, root, i);
    PayloadSeenUndated(g, root, i);
    SentIsTruthy(g, root, i);
    NullIsNotTruthy(Sent(g, root, i));
    assert vs[i] == Null;
  }

  lemma NothingIsNull()
    ensures OrNull(Null) == Null == OrNull(Str(""))
  {
  }

  lemma NullIsNotTruthy(v: Json)
    ensures Truthy(v) ==> !SameUpToOrder(Null, v)
  {
  }

  lemma PeekTruthy(g: Graph, v: Value)
    ensures Truthy(Peek(g, v)) ==> v.Ref? || Truthy(v.j)
  {
  }

  lemma SentIsTruthy(g: Graph, root: Value, i: nat)
    requires Heap(g) && Closed(g) && Wellformed(g, root) && Validate(InputOf(g, root)).None? && (i == 0 || i == 3)
    ensures Truthy(Sent(g, root, i))
  {
    hide *;
    AcceptedArgument(g, root);
    InputParts(g, root);
    HolderIs(g, root, i);
    HolderNameIs(i);
    PartValueIs(g, root, i);
    var w := At(g, PartHolder(g, root, i), PartKeys(g, root)[i]);
    AtIsWellformed(g, PartHolder(g, root, i), PartKeys(g, root)[i]);
    SentIs(g, root, i);
    PayloadSeenUndated(g, root, i);
    OrCopied(g, w, PayloadSeen(g, root, i));
    PeekTruthy(g, w);
    TruthyStays(RedactValue(g, w, PayloadSeen(g, root, i)).0);
    TextIsTruthy(Peek(g, w));
  }

  lemma TextIsTruthy(v: Json)
    ensures v.Str? && TextOf(v) != "" ==> Truthy(v)
  {
  }

  /**
   * Recovery finds the payload text of an accepted call unchanged exactly when draft and outcome are copied where
   * they stand in the argument, and every object is copied under the same part in the payload and in the argument.
   */
  lemma NoConflictIff(g: Graph, root: Value, t: Times)
    requires Heap(g) && Closed(g) && Wellformed(g, root) && Validate(InputOf(g, root)).None?
    ensures RecoveryError(NewRow(RequestOf(g, root), t)).None? <==> CopiedAlike(g, root)
  {
    hide *;
    RecoveryErrorIs(NewRow(RequestOf(g, root), t));
    NewRowIs(RequestOf(g, root), t);
    RequestIs(g, root);
    RequestTextNotEmpty(g, root);
    PayloadTextIs(RequestOf(g, root).stored);
    SameTextIff(g, root);
    CopiedAlikeParts(g, root);
    if !InPlace(g, root, "draft") {
      OutOfPlaceDiffers(g, root, "draft");
    } else if !InPlace(g, root, "outcome") {
      OutOfPlaceDiffers(g, root, "outcome");
    } else {
      var vs := PayloadValues(InputIn(RedactValue(g, root, {}).0));
      ActorReadsBack(g, root);
      forall i | 0 <= i < 7
        ensures SameUpToOrder(vs[i], Sent(g, root, i)) <==> PartAlike(g, root, i)
      {
        AcceptedHolder(g, root, i);
        HolderNameIs(i);
        PartSameIff(g, root, i);
        PartAlikeIs(g, root, i);
      }
    }
  }

  lemma CopiedAlikeParts(g: Graph, root: Value)
    ensures CopiedAlike(g, root)
       <==> InPlace(g, root, "draft") && InPlace(g, root, "outcome") && forall i :: 0 <= i < 7 ==> PartAlike(g, root, i)
  {
    hide InPlace, PartAlike;
  }

  lemma PartAlikeIs(g: Graph, root: Value, i: nat)
    requires i < 7 && root.Ref? && PartHolder(g, root, i).Ref?
    ensures PartAlike(g, root, i) <==> forall x :: CopiedInPayload(g, root, i, x) <==> CopiedInArgument(g, root, i, x)
  {
    hide CopiedInPayload, CopiedInArgument, PartHolder;
  }

  /** The names of the draft are texts, numbers or missing, as its own generators make them. */
  ghost predicate PlainNames(g: Graph, root: Value) {
    forall i, x :: 0 <= i < 3 ==> !Reaches(g, PartValue(g, root, i), {}, x)
  }

  /**
   * An argument that lists its draft first: an object to which both the draft and the reason, patch or metadata
   * lead always makes recovery report a conflict.
   */
  lemma SharedWithDraftConflicts(g: Graph, root: Value, at: int, i: nat, x: Id, t: Times)
    requires Heap(g) && Closed(g) && Wellformed(g, root) && Validate(InputOf(g, root)).None? && PlainNames(g, root)
    requires InFront(MembersOf(g, root), at, "outcome") && MembersOf(g, root)[at].key == "draft" && root.Ref?
    requires Reaches(g, MembersOf(g, root)[at].value, {root.id}, x)
    requires 3 <= i < 7 && Reaches(g, PartValue(g, root, i), {}, x)
    ensures RecoveryError(NewRow(RequestOf(g, root), t)).Some?
  {
    hide *;
    NoConflictIff(g, root, t);
    var j := FirstPart(g, root, i, x);
    AcceptedHolder(g, root, j);
    HolderNameIs(j);
    PublicParts();
    MemberMeets(g, MembersOf(g, root), {root.id}, at, "outcome", x);
    CopiedAlikeParts(g, root);
    PartAlikeIs(g, root, j);
    CopiedInArgumentIs(g, root, j, x);
    MetInArgumentIs(g, root, j, x);
  }

  lemma MemberMeets(g: Graph, ms: seq<Member<Value>>, avoid: set<Id>, at: int, key: string, x: Id)
    requires InFront(ms, at, key) && !SecretKey(ms[at].key) && Reaches(g, ms[at].value, avoid, x)
    ensures MetInFront(g, ms, avoid, key, x)
  {
    hide Reaches, SecretKey;
  }

  lemma {:induction false} FirstPart(g: Graph, root: Value, i: nat, x: Id) returns (j: nat)
    requires 3 <= i < 7 && PlainNames(g, root) && Reaches(g, PartValue(g, root, i), {}, x)
    ensures 3 <= j <= i && CopiedInPayload(g, root, j, x)
    decreases i
  {
    hide Reaches, PartValue;
    j := i;
    if k :| 0 <= k < i && Reaches(g, PartValue(g, root, k), {}, x) {
      j := FirstPart(g, root, k, x);
    }
  }

  /**
   * An outcome that lists its metadata before its patch: an object to which both lead, and no earlier part of the
   * payload does, always makes recovery report a conflict. The draft need not hold it.
   */
  lemma MetadataFirstConflicts(g: Graph, root: Value, at: int, x: Id, t: Times)
    requires Heap(g) && Closed(g) && Wellformed(g, root) && Validate(InputOf(g, root)).None? && PlainNames(g, root)
    requires root.Ref? && At(g, root, "outcome").Ref?
    requires (var o := At(g, root, "outcome");
              && InFront(MembersOf(g, o), at, "patch") && MembersOf(g, o)[at].key == "review_metadata"
              && Reaches(g, MembersOf(g, o)[at].value, {root.id, o.id}, x))
    requires Reaches(g, PartValue(g, root, 5), {}, x) && !Reaches(g, PartValue(g, root, 4), {}, x)
    ensures RecoveryError(NewRow(RequestOf(g, root), t)).Some?
  {
    hide *;
    var o := At(g, root, "outcome");
    NoConflictIff(g, root, t);
    PublicParts();
    HolderIs(g, root, 5);
    HolderNameIs(5);
    PartValueIs(g, root, 5);
    DecisionLeadsNowhere(g, root, x);
    CopiedInPayloadIs(g, root, 5, x);
    PlainNamesLead(g, root, x);
    MemberMeets(g, MembersOf(g, o), {root.id, o.id}, at, "patch", x);
    CopiedAlikeParts(g, root);
    PartAlikeIs(g, root, 5);
    CopiedInArgumentIs(g, root, 5, x);
    MetInArgumentIs(g, root, 5, x);
  }

  lemma PlainNamesLead(g: Graph, root: Value, x: Id)
    requires PlainNames(g, root)
    ensures forall i :: 0 <= i < 3 ==> !Reaches(g, PartValue(g, root, i), {}, x)
  {
    hide Reaches, PartValue;
  }

  lemma ScalarLeadsNowhere(g: Graph, v: Value, avoid: set<Id>, x: Id)
    requires Wellformed(g, v) && Scalar(Peek(g, v))
    ensures !Reaches(g, v, avoid, x) && !Reaches(g, Or(v), avoid, x)
  {
    hide ReachesIn;
  }

  lemma DecisionLeadsNowhere(g: Graph, root: Value, x: Id)
    requires Closed(g) && Wellformed(g, root) && Validate(InputOf(g, root)).None?
    ensures !Reaches(g, PartValue(g, root, 3), {}, x)
  {
    hide *;
    AcceptedArgument(g, root);
    HolderIs(g, root, 3);
    HolderNameIs(3);
    PartValueIs(g, root, 3);
    var v := At(g, At(g, root, "outcome"), "decision");
    AtIsWellformed(g, At(g, root, "outcome"), "decision");
    TextIsScalar(Peek(g, v));
    ScalarLeadsNowhere(g, v, {}, x);
  }

  lemma TreeRequestIs(input: Input)
    ensures TreeRequest(input) == Request(input, PayloadText(input), RedactInput(input))
  {
    hide PayloadText, RedactInput;
  }

  /** A request in which nothing is shared is storable. */
  lemma TreeIsStorable(input: Input)
    requires Scalar(ProposalId(input.draft))
    ensures Storable(TreeRequest(input))
  {
    RedactInputFixed(input);
    StoredProposalId(input.draft);
    hide Validate, Payload, ProposalId, Redact, Canon;
  }
}
