/**
 * Three calls for one Draft, as the workbench builds them: an approval that holds the Draft's own array of references,
 * an edit that holds one array of references twice, and the same approval with a copy of the Draft's array.
 */
module ReviewSharedExample {
  import opened Json
  import opened Secrets
  import opened Redaction
  import opened Canonical
  import opened Reachability
  import opened GraphCopies
  import opened ReviewOutcome
  import opened ReviewLog
  import opened ReviewRequest
  import opened ReviewTree
  import opened Placement
  import opened ReviewCrash
  import opened ReviewRepository
  import opened ReviewReplay
  import opened ReviewExample

  // ---------------------------------------------------------------- the Draft

  lemma ArgumentNames()
    ensures "draft" != "outcome" && "draft" != "actor" && "outcome" != "actor"
  {
    assert |"draft"| == 5 && |"outcome"| == 7 && |"actor"| == 5 && "draft"[0] == 'd' && "actor"[0] == 'a';
  }

  lemma OutcomeNames()
    ensures "decision" != "idempotency_key" && "decision" != "review_metadata" && "decision" != "patch"
    ensures "idempotency_key" != "review_metadata" && "idempotency_key" != "patch" && "review_metadata" != "patch"
    ensures "reason" != "decision" && "reason" != "idempotency_key" && "reason" != "review_metadata" && "reason" != "patch"
  {
    assert |"decision"| == 8 && |"idempotency_key"| == 15 && |"review_metadata"| == 15 && |"patch"| == 5 && |"reason"| == 6;
    assert "idempotency_key"[0] == 'i' && "review_metadata"[0] == 'r';
  }

  lemma EvidenceIsTidy()
    ensures Unambiguous(EVIDENCE) && EVIDENCE.members == [Member("source_refs", Arr([Str("S-1")]))]
    ensures Containers(EVIDENCE) == 2
  {
    var ms, xs := [Member("source_refs", Arr([Str("S-1")]))], [Str("S-1")];
    assert ms[1..] == [] && xs[1..] == [];
    assert Unambiguous(Arr(xs));
    assert Containers(Arr(xs)) == 1;
  }

  lemma LinesAreTidy()
    ensures Unambiguous(LINES) && Containers(LINES) == 3
  {
    OneMemberTidy("debit");
    OneMemberTidy("credit");
    hide UniqueKeys;
    var xs := [DEBIT, CREDIT];
    assert xs[1..] == [CREDIT] && xs[1..][1..] == [];
    assert ItemContainers(xs) == Containers(DEBIT) + ItemContainers(xs[1..]);
    assert ItemContainers(xs[1..]) == Containers(CREDIT) + ItemContainers(xs[1..][1..]);
  }

  lemma OneMemberTidy(side: string)
    ensures (var v := Obj([Member(side, Num(1250000))]); Unambiguous(v) && Containers(v) == 1)
  {
    var ms := [Member(side, Num(1250000))];
    assert ms[1..] == [];
    assert MemberContainers(ms) == Containers(ms[0].value) + MemberContainers(ms[1..]);
  }

  lemma ColumnsAre()
    ensures |COLUMNS| == 11 && COLUMNS[9] == Member("lines", LINES) && COLUMNS[10] == Member("ai_evidence", EVIDENCE)
    ensures forall i :: 0 <= i < 9 ==> Scalar(COLUMNS[i].value)
  {
  }

  lemma ColumnsAreTidy()
    ensures UniqueKeys(COLUMNS) && Unambiguous(Obj(COLUMNS))
  {
    ColumnNames();
    EvidenceIsTidy();
    LinesAreTidy();
    ColumnsAre();
    assert UniqueKeys(COLUMNS);
    hide UniqueKeys;
    assert forall i :: 0 <= i < 9 ==> Unambiguous(COLUMNS[i].value);
  }

  /** Six of the Draft's nodes come before the outcome, and its evidence is the last but one. */
  lemma ColumnNumbers()
    ensures Containers(Obj(COLUMNS)) == 6 && MemberContainers(COLUMNS[..10]) == 3
  {
    ColumnsAre();
    EvidenceIsTidy();
    LinesAreTidy();
    ScalarsHoldNothing(COLUMNS[..9]);
    assert COLUMNS[..10] == COLUMNS[..9] + [COLUMNS[9]] && COLUMNS == COLUMNS[..10] + [COLUMNS[10]];
    ContainersConcat(COLUMNS[..9], [COLUMNS[9]]);
    ContainersConcat(COLUMNS[..10], [COLUMNS[10]]);
    OneContainer(COLUMNS[9]);
    OneContainer(COLUMNS[10]);
    ObjectContainers(COLUMNS);
  }

  lemma OneContainer(m: Member<Json>)
    ensures MemberContainers([m]) == Containers(m.value) && MemberContainers([]) == 0
  {
    assert [m][1..] == [];
  }

  lemma ObjectContainers(ms: seq<Member<Json>>)
    ensures Containers(Obj(ms)) == 1 + MemberContainers(ms)
  {
    hide MemberContainers;
  }

  lemma FirstContainers(ms: seq<Member<Json>>)
    requires |ms| >= 1
    ensures MemberContainers(ms[..0]) == 0 && MemberContainers(ms[..1]) == Containers(ms[0].value)
  {
    assert ms[..1] == [ms[0]];
    OneContainer(ms[0]);
  }

  lemma PlacedIs(v: Json, n: Id)
    ensures !Scalar(v) ==> Placed(v, n) == Ref(n)
    ensures Scalar(v) ==> Placed(v, n) == Prim(v)
  {
  }

  lemma ObjectIsNoScalar(ms: seq<Member<Json>>)
    ensures !Scalar(Obj(ms))
  {
  }

  // ---------------------------------------------------------------- the heap

  /** The outcome that approves, with its metadata at 8. */
  function Approving(): seq<Member<Value>> {
    [Member("decision", Prim(Str("APPROVE"))), Member("idempotency_key", Prim(Str("O-1"))), Member("review_metadata", Ref(8))]
  }

  /** The outcome that edits, with its metadata at 8 and its patch at 9. */
  function Editing(): seq<Member<Value>> {
    [Member("decision", Prim(Str("EDIT"))), Member("idempotency_key", Prim(Str("O-3"))), Member("review_metadata", Ref(8)),
     Member("patch", Ref(9))]
  }

  function Argument(): seq<Member<Value>> {
    [Member("draft", Ref(1)), Member("outcome", Ref(7)), Member("actor", Prim(Str("controller")))]
  }

  function Referring(refs: Id): seq<Member<Value>> {
    [Member("source_refs", Ref(refs))]
  }

  const REFERENCES := ArrayNode([Prim(Str("S-1"))])

  /** The argument and the outcome; the metadata holds the references at `refs`. */
  function Around(o: seq<Member<Value>>, refs: Id): Graph {
    map[0 := ObjectNode(Argument()), 7 := ObjectNode(o), 8 := ObjectNode(Referring(refs)), 9 := ObjectNode(Referring(10)),
        10 := REFERENCES]
  }

  /** The Draft's nodes are 1 to 6, its references 6. */
  function Memory(o: seq<Member<Value>>, refs: Id): Graph {
    HeapOf(Obj(COLUMNS), 1) + Around(o, refs)
  }

  /** The approval with the Draft's own references. */
  function Shared(): Graph {
    Memory(Approving(), 6)
  }

  /** The edit whose metadata and patch hold one array of references. */
  function Twice(): Graph {
    Memory(Editing(), 10)
  }

  predicate Either(o: seq<Member<Value>>, refs: Id) {
    (o == Approving() && refs == 6) || (o == Editing() && refs == 10)
  }

  lemma AroundHolds(o: seq<Member<Value>>, refs: Id)
    ensures (var g := Around(o, refs);
             && g.Keys == {0, 7, 8, 9, 10} && g[0] == ObjectNode(Argument()) && g[7] == ObjectNode(o)
             && g[8] == ObjectNode(Referring(refs)) && g[9] == ObjectNode(Referring(10)) && g[10] == REFERENCES)
  {
    hide Argument, Referring;
  }

  lemma MemoryHolds(o: seq<Member<Value>>, refs: Id)
    ensures (var g, h := Memory(o, refs), HeapOf(Obj(COLUMNS), 1);
             Within(h, g) && Within(Around(o, refs), g) && forall id :: id in g && id !in h ==> id in {0, 7, 8, 9, 10})
  {
    hide *;
    ColumnNumbers();
    NumbersOf(Obj(COLUMNS), 1);
    AroundHolds(o, refs);
    MemoryIs(o, refs);
    SumHolds(HeapOf(Obj(COLUMNS), 1), Around(o, refs));
  }

  lemma SumHolds(h: Graph, m: Graph)
    requires h.Keys !! m.Keys
    ensures Within(h, h + m) && Within(m, h + m) && forall id :: id in h + m && id !in h ==> id in m.Keys
  {
  }

  lemma MemoryIs(o: seq<Member<Value>>, refs: Id)
    ensures Memory(o, refs) == HeapOf(Obj(COLUMNS), 1) + Around(o, refs)
  {
    hide HeapOf, Around;
  }

  lemma WithinAt(h: Graph, g: Graph)
    requires Within(h, g)
    ensures h.Keys <= g.Keys && forall id :: id in h ==> g[id] == h[id]
  {
  }

  lemma MemoryNodes(o: seq<Member<Value>>, refs: Id)
    ensures (var g := Memory(o, refs);
             && {0, 7, 8, 9, 10} <= g.Keys && g[0] == ObjectNode(Argument()) && g[7] == ObjectNode(o)
             && g[8] == ObjectNode(Referring(refs)) && g[9] == ObjectNode(Referring(10)) && g[10] == REFERENCES)
  {
    hide *;
    MemoryHolds(o, refs);
    AroundHolds(o, refs);
    WithinAt(Around(o, refs), Memory(o, refs));
  }

  /** The `i`-th member of the object at `n`. */
  predicate Holds(g: Graph, n: Id, i: nat, m: Member<Value>) {
    n in g && g[n].ObjectNode? && i < |g[n].members| && g[n].members[i] == m
  }

  lemma ChildHeld(g: Graph, v: Json, n: Id, i: nat)
    requires Within(HeapOf(v, n), g) && v.Obj? && i < |v.members|
    ensures (var k := n + 1 + MemberContainers(v.members[..i]);
             Holds(g, n, i, Member(v.members[i].key, Placed(v.members[i].value, k))) && Within(HeapOf(v.members[i].value, k), g))
    ensures n in g && g[n].ObjectNode? && |g[n].members| == |v.members|
  {
    hide Within, HeapOf, Placed, MemberContainers;
    ChildPlaced(g, v, n, i);
  }

  predicate ArrayAt(g: Graph, id: Id) {
    id in g && g[id].ArrayNode?
  }

  /** The evidence at `n` holds its references at the next place. */
  lemma EvidenceAt(g: Graph, n: Id)
    requires Within(HeapOf(EVIDENCE, n), g)
    ensures Placed(EVIDENCE, n) == Ref(n) && Holds(g, n, 0, Member("source_refs", Ref(n + 1))) && ArrayAt(g, n + 1)
    ensures |g[n].members| == 1
  {
    EvidenceIsTidy();
    ChildHeld(g, EVIDENCE, n, 0);
    FirstContainers(EVIDENCE.members);
    WithinNode(Arr([Str("S-1")]), n + 1, g);
    hide HeapOf, Within;
  }

  /** The Draft's evidence and its references. */
  lemma EvidenceHeld(g: Graph)
    requires Within(HeapOf(Obj(COLUMNS), 1), g)
    ensures Holds(g, 1, 10, Member("ai_evidence", Ref(5))) && Holds(g, 5, 0, Member("source_refs", Ref(6))) && ArrayAt(g, 6)
    ensures 1 in g && g[1].ObjectNode? && |g[1].members| == 11
  {
    hide *;
    ColumnsAre();
    ColumnNumbers();
    ChildHeld(g, Obj(COLUMNS), 1, 10);
    EvidenceAt(g, 5);
  }

  lemma FitsFrom(g: Graph, ms: seq<Member<Value>>)
    requires UniqueKeys(ms) && forall i :: 0 <= i < |ms| ==> Wellformed(g, ms[i].value)
    ensures Fits(ObjectNode(ms), g)
  {
    hide UniqueKeys, Wellformed;
  }

  lemma SinglesFit(g: Graph, refs: Id)
    requires refs in g
    ensures Fits(ObjectNode(Referring(refs)), g) && Fits(REFERENCES, g)
  {
  }

  lemma TextFits(g: Graph, t: string)
    ensures Wellformed(g, Prim(Str(t)))
  {
  }

  lemma MembersFitMemory(g: Graph, o: seq<Member<Value>>, refs: Id)
    requires Either(o, refs) && {1, 7, 8, 9, refs, 10} <= g.Keys
    ensures Fits(ObjectNode(Argument()), g) && Fits(ObjectNode(o), g) && Fits(ObjectNode(Referring(refs)), g)
    ensures Fits(ObjectNode(Referring(10)), g) && Fits(REFERENCES, g)
  {
    hide *;
    ArgumentIs();
    OutcomesAre(o, refs);
    KnownReference(g, 1);
    KnownReference(g, 7);
    KnownReference(g, 8);
    KnownReference(g, 9);
    TextFits(g, "controller");
    TextFits(g, if refs == 6 then "APPROVE" else "EDIT");
    TextFits(g, if refs == 6 then "O-1" else "O-3");
    FitsFrom(g, Argument());
    FitsFrom(g, o);
    SinglesFit(g, refs);
    SinglesFit(g, 10);
  }

  lemma MemoryIsHeap(o: seq<Member<Value>>, refs: Id)
    requires Either(o, refs)
    ensures (var g := Memory(o, refs); Heap(g) && Closed(g) && Wellformed(g, Ref(0)))
  {
    hide *;
    var g := Memory(o, refs);
    MemoryHolds(o, refs);
    MemoryNodes(o, refs);
    EvidenceHeld(g);
    ArrayIn(g, 6);
    ColumnsAreTidy();
    TreeFits(Obj(COLUMNS), 1, g);
    EitherRefs(o, refs);
    HeldNode(g, 1, 10, Member("ai_evidence", Ref(5)));
    HeldNode(g, 5, 0, Member("source_refs", Ref(6)));
    MembersFitMemory(g, o, refs);
    AllFitFrom(HeapOf(Obj(COLUMNS), 1), g, {0, 7, 8, 9, 10});
    AllFitIsHeap(g);
    KnownReference(g, 0);
  }

  lemma KnownReference(g: Graph, id: Id)
    ensures id in g ==> Wellformed(g, Ref(id))
  {
  }

  lemma ArrayIn(g: Graph, id: Id)
    ensures ArrayAt(g, id) ==> id in g
  {
  }

  lemma EitherRefs(o: seq<Member<Value>>, refs: Id)
    requires Either(o, refs)
    ensures refs == 6 || refs == 10
  {
  }

  lemma HeldNode(g: Graph, n: Id, i: nat, m: Member<Value>)
    requires Holds(g, n, i, m)
    ensures n in g && g[n].ObjectNode? && i < |g[n].members| && g[n].members[i] == m
    ensures MembersOf(g, Ref(n)) == g[n].members
  {
  }

  lemma AllFitFrom(h: Graph, g: Graph, more: set<Id>)
    requires AllFit(h, g) && Within(h, g) && more <= g.Keys && (forall id :: id in more ==> Fits(g[id], g))
    requires forall id :: id in g && id !in h ==> id in more
    ensures AllFit(g, g)
  {
    hide Fits;
  }

  // ---------------------------------------------------------------- what the calls read

  const EDITED := Input(Obj(COLUMNS), Outcome("EDIT", "O-3", Null, EVIDENCE, EVIDENCE), "controller")

  lemma InputsAre()
    ensures APPROVAL == Input(Obj(COLUMNS), Outcome("APPROVE", "O-1", Null, Null, EVIDENCE), "controller")
    ensures EDITED == Input(Obj(COLUMNS), Outcome("EDIT", "O-3", Null, EVIDENCE, EVIDENCE), "controller")
  {
  }

  lemma PatchesReferences()
    ensures OutcomeError(EDITED.outcome).None?
  {
    var f := IMMUTABLE_FIELDS;
    assert |f[0]| == 14 && |f[1]| == 9 && |f[2]| == 11 && |f[3]| == 17 && |f[4]| == 13 && |f[5]| == 18 && |f[6]| == 15;
    assert |f[7]| == 14 && |f[8]| == 13 && |f[9]| == 10 && |f[10]| == 12 && |f| == 11;
    var ms := EVIDENCE.members;
    assert ms[1..] == [];
    forall field | field in f
      ensures Find(ms, field).None?
    {
      assert |"source_refs"| == 11 && "source_refs"[0] == 's' && f[2][0] == 'p';
    }
    assert !TouchesTrace(EVIDENCE);
    var decisions := ["APPROVE", "REJECT", "EDIT"];
    assert decisions[2] == EDITED.outcome.decision;
    assert |EDITED.outcome.key| == 3;
  }

  lemma EditIsAccepted()
    ensures Validate(EDITED).None?
  {
    ApprovedDraft();
    ApprovedOutcome();
    PatchesReferences();
    hide IsAIDraft, OutcomeError;
    assert |"controller"| == 10;
  }

  lemma AtNode(g: Graph, n: Id, ms: seq<Member<Value>>, i: nat)
    requires n in g && g[n] == ObjectNode(ms) && UniqueKeys(ms) && i < |ms|
    ensures At(g, Ref(n), ms[i].key) == ms[i].value
  {
    FindAt(ms, i);
  }

  lemma AtLacks(g: Graph, n: Id, ms: seq<Member<Value>>, key: string)
    requires n in g && g[n] == ObjectNode(ms) && forall i :: 0 <= i < |ms| ==> ms[i].key != key
    ensures At(g, Ref(n), key) == Prim(Null)
  {
    hide Find;
  }

  lemma ArgumentIs()
    ensures (var ms := Argument();
             && |ms| == 3 && UniqueKeys(ms) && ms[0] == Member("draft", Ref(1)) && ms[1] == Member("outcome", Ref(7))
             && ms[2] == Member("actor", Prim(Str("controller"))))
  {
    ArgumentNames();
  }

  lemma OutcomesAre(o: seq<Member<Value>>, refs: Id)
    requires Either(o, refs)
    ensures 3 <= |o| <= 4 && UniqueKeys(o) && o[2] == Member("review_metadata", Ref(8))
    ensures o[0] == Member("decision", Prim(Str(if refs == 6 then "APPROVE" else "EDIT")))
    ensures o[1] == Member("idempotency_key", Prim(Str(if refs == 6 then "O-1" else "O-3")))
    ensures |o| == 4 <==> refs == 10
    ensures |o| == 4 ==> o[3] == Member("patch", Ref(9))
  {
    OutcomeNames();
  }

  /** What stands under the names that a call reads. */
  ghost predicate Reads(g: Graph, refs: Id) {
    && At(g, Ref(0), "draft") == Ref(1) && At(g, Ref(0), "outcome") == Ref(7)
    && At(g, Ref(0), "actor") == Prim(Str("controller"))
    && At(g, Ref(7), "decision") == Prim(Str(if refs == 6 then "APPROVE" else "EDIT"))
    && At(g, Ref(7), "idempotency_key") == Prim(Str(if refs == 6 then "O-1" else "O-3"))
    && At(g, Ref(7), "reason") == Prim(Null) && At(g, Ref(7), "review_metadata") == Ref(8)
    && At(g, Ref(7), "patch") == if refs == 6 then Prim(Null) else Ref(9)
  }

  lemma ReadsAre(g: Graph, refs: Id)
    ensures Reads(g, refs)
       <==> && At(g, Ref(0), "draft") == Ref(1) && At(g, Ref(0), "outcome") == Ref(7)
            && At(g, Ref(0), "actor") == Prim(Str("controller"))
            && At(g, Ref(7), "decision") == Prim(Str(if refs == 6 then "APPROVE" else "EDIT"))
            && At(g, Ref(7), "idempotency_key") == Prim(Str(if refs == 6 then "O-1" else "O-3"))
            && At(g, Ref(7), "reason") == Prim(Null) && At(g, Ref(7), "review_metadata") == Ref(8)
            && At(g, Ref(7), "patch") == if refs == 6 then Prim(Null) else Ref(9)
  {
    hide At;
  }

  lemma MemoryReads(o: seq<Member<Value>>, refs: Id)
    requires Either(o, refs)
    ensures Reads(Memory(o, refs), refs)
  {
    hide *;
    var g := Memory(o, refs);
    MemoryNodes(o, refs);
    ArgumentIs();
    OutcomesAre(o, refs);
    EitherRefs(o, refs);
    OutcomeNames();
    AtNode(g, 0, Argument(), 0);
    AtNode(g, 0, Argument(), 1);
    AtNode(g, 0, Argument(), 2);
    AtNode(g, 7, o, 0);
    AtNode(g, 7, o, 1);
    AtNode(g, 7, o, 2);
    AtLacks(g, 7, o, "reason");
    if refs == 6 {
      AtLacks(g, 7, o, "patch");
    } else {
      AtNode(g, 7, o, 3);
    }
    ReadsAre(g, refs);
  }

  /** The Draft as the heap shows it. */
  lemma DraftShown(g: Graph)
    requires Closed(g) && Within(HeapOf(Obj(COLUMNS), 1), g)
    ensures (var l := Numbered(Obj(COLUMNS), 1);
             && Wellformed(g, Ref(1)) && Represents(g, Ref(1), l) && Proper(l) && AliasFree(l)
             && (forall id :: id in Nodes(l) ==> 1 <= id < 7) && Erase(l) == Obj(COLUMNS))
  {
    hide *;
    ObjectIsNoScalar(COLUMNS);
    PlacedIs(Obj(COLUMNS), 1);
    PlacedFits(Obj(COLUMNS), 1, g);
    HeapShows(Obj(COLUMNS), 1, g);
    NumberedOnce(Obj(COLUMNS), 1);
    ColumnNumbers();
    RepresentedIsProper(g, Ref(1), Numbered(Obj(COLUMNS), 1));
  }

  /** The first check finds nothing under the patch that it refuses. */
  lemma PatchShown(g: Graph)
    requires 9 in g && g[9] == ObjectNode(Referring(10))
    ensures (var a := View(g, Ref(9));
             !Scalar(a) && Truthy(a) && forall key :: Find(Members(a), key).Some? <==> Find(Members(EVIDENCE), key).Some?)
    ensures !Scalar(EVIDENCE) && Truthy(EVIDENCE)
  {
    var ms, ps := EVIDENCE.members, Referring(10);
    assert ms[1..] == [] && ps[1..] == [];
    forall key
      ensures Find(PeekMembers(g, ps), key).Some? <==> Find(ms, key).Some?
    {
      PeekFind(g, ps, key);
      assert Find(ps[1..], key).None? && Find(ms[1..], key).None?;
    }
  }

  lemma NullShown(g: Graph)
    ensures View(g, Prim(Null)) == Null && Peek(g, Prim(Null)) == Null
  {
  }

  lemma PeekText(g: Graph, t: string)
    ensures TextOf(Peek(g, Prim(Str(t)))) == t
  {
  }

  function ShownBy(refs: Id): Input {
    if refs == 6 then APPROVAL else EDITED
  }

  lemma ShownIs(refs: Id)
    ensures (var input := ShownBy(refs);
             && input.draft == Obj(COLUMNS) && input.actor == "controller"
             && input.outcome.decision == (if refs == 6 then "APPROVE" else "EDIT")
             && input.outcome.key == (if refs == 6 then "O-1" else "O-3")
             && input.outcome.patch == (if refs == 6 then Null else EVIDENCE))
    ensures Validate(ShownBy(refs)).None?
  {
    ApprovalIsValid();
    EditIsAccepted();
    hide Validate;
  }

  /** Both calls pass the first check, and their proposal id is a text. */
  lemma MemoryIsAccepted(o: seq<Member<Value>>, refs: Id)
    requires Either(o, refs)
    ensures (var g := Memory(o, refs);
             && Heap(g) && Closed(g) && Wellformed(g, Ref(0)) && Validate(InputOf(g, Ref(0))).None?
             && Scalar(ProposalId(InputOf(g, Ref(0)).draft))
             && InputOf(g, Ref(0)).outcome.key == (if refs == 6 then "O-1" else "O-3"))
  {
    hide *;
    var g, l := Memory(o, refs), Numbered(Obj(COLUMNS), 1);
    MemoryIsHeap(o, refs);
    MemoryHolds(o, refs);
    MemoryNodes(o, refs);
    MemoryReads(o, refs);
    ReadsAre(g, refs);
    EitherRefs(o, refs);
    DraftShown(g);
    InputParts(g, Ref(0));
    ShownIs(refs);
    PatchShown(g);
    NullShown(g);
    PeekText(g, "controller");
    PeekText(g, if refs == 6 then "APPROVE" else "EDIT");
    PeekText(g, if refs == 6 then "O-1" else "O-3");
    ViewErased(g, Ref(1), l, "ai_proposed");
    ViewErased(g, Ref(1), l, "ai_proposal_id");
    ViewErased(g, Ref(1), l, "posting_status");
    ProposalIs(InputOf(g, Ref(0)).draft);
    ProposalIs(Obj(COLUMNS));
    TextIsScalar(Str("DRAFT"));
    ApprovalIsValid();
    ShownIs(6);
    InputsAre();
    SameCheck(InputOf(g, Ref(0)), ShownBy(refs));
  }

  // ---------------------------------------------------------------- the approval with a copy

  function ApprovalShown(): seq<Member<Json>> {
    [Member("decision", Str("APPROVE")), Member("idempotency_key", Str("O-1")), Member("review_metadata", EVIDENCE)]
  }

  function ArgumentShown(): seq<Member<Json>> {
    [Member("draft", Obj(COLUMNS)), Member("outcome", Obj(ApprovalShown())), Member("actor", Str("controller"))]
  }

  /** The approval whose metadata holds a copy of the Draft's references: a heap in which nothing is shared. */
  function Copied(): Graph {
    HeapOf(Obj(ArgumentShown()), 0)
  }

  lemma ShownAre()
    ensures (var ms := ApprovalShown();
             && |ms| == 3 && UniqueKeys(ms) && ms[0] == Member("decision", Str("APPROVE"))
             && ms[1] == Member("idempotency_key", Str("O-1")) && ms[2] == Member("review_metadata", EVIDENCE))
    ensures (var ms := ArgumentShown();
             && |ms| == 3 && UniqueKeys(ms) && ms[0] == Member("draft", Obj(COLUMNS))
             && ms[1] == Member("outcome", Obj(ApprovalShown())) && ms[2] == Member("actor", Str("controller")))
  {
    OutcomeNames();
    ArgumentNames();
  }

  lemma ReadsOwn(ms: seq<Member<Json>>, i: nat)
    requires UniqueKeys(ms) && i < |ms|
    ensures Get(Obj(ms), ms[i].key) == ms[i].value
  {
    FindAt(ms, i);
  }

  lemma ReadsNothing(ms: seq<Member<Json>>, key: string)
    requires forall i :: 0 <= i < |ms| ==> ms[i].key != key
    ensures Get(Obj(ms), key) == Null
  {
    hide Find;
  }

  lemma InputShown(v: Json, decision: string, key: string, patch: Json)
    requires Get(v, "draft") == Obj(COLUMNS) && Get(v, "actor") == Str("controller")
    requires (var o := Get(v, "outcome");
              && Get(o, "decision") == Str(decision) && Get(o, "idempotency_key") == Str(key) && Get(o, "reason") == Null
              && Get(o, "patch") == patch && Get(o, "review_metadata") == EVIDENCE)
    ensures InputIn(v) == Input(Obj(COLUMNS), Outcome(decision, key, Null, patch, EVIDENCE), "controller")
  {
    hide Get;
  }

  lemma TreeIsTidy()
    ensures Unambiguous(Obj(ArgumentShown())) && Copied() == HeapOf(Obj(ArgumentShown()), 0)
  {
    EvidenceIsTidy();
    ColumnsAreTidy();
    ShownAre();
    hide ApprovalShown, ArgumentShown, UniqueKeys, HeapOf;
    assert Unambiguous(Obj(ApprovalShown()));
  }

  lemma TreeShown()
    ensures InputIn(Obj(ArgumentShown())) == APPROVAL
  {
    hide *;
    var o, v := ApprovalShown(), ArgumentShown();
    OutcomeNames();
    ShownAre();
    ReadsOwn(v, 0);
    ReadsOwn(v, 1);
    ReadsOwn(v, 2);
    ReadsOwn(o, 0);
    ReadsOwn(o, 1);
    ReadsOwn(o, 2);
    ReadsNothing(o, "reason");
    ReadsNothing(o, "patch");
    InputsAre();
    InputShown(Obj(v), "APPROVE", "O-1", Null);
  }

  /** What the heap of the copy shows. */
  lemma CopyShown()
    ensures (var g, l := Copied(), Numbered(Obj(ArgumentShown()), 0);
             && Heap(g) && Closed(g) && Wellformed(g, Ref(0)) && Represents(g, Ref(0), l) && AliasFree(l)
             && Erase(l) == Obj(ArgumentShown()))
  {
    hide *;
    var v := Obj(ArgumentShown());
    TreeIsTidy();
    TreeHeap(v);
    ObjectIsNoScalar(ArgumentShown());
    PlacedIs(v, 0);
    HeapShows(v, 0, Copied());
    NumberedOnce(v, 0);
  }

  lemma CopyIsAccepted()
    ensures (var g := Copied();
             && Heap(g) && Closed(g) && Wellformed(g, Ref(0)) && Validate(InputOf(g, Ref(0))).None?
             && Scalar(ProposalId(InputOf(g, Ref(0)).draft)) && InputOf(g, Ref(0)).outcome.key == "O-1")
  {
    hide *;
    var g, l := Copied(), Numbered(Obj(ArgumentShown()), 0);
    CopyShown();
    TreeShown();
    TreeCheck(g, Ref(0), l);
    ApprovalIsValid();
    ShownIs(6);
    InputsAre();
    ProposalIs(APPROVAL.draft);
    TreeNamesProposal(g, Ref(0), l);
  }

  // ---------------------------------------------------------------- the calls

  predicate IsCall(g: Graph) {
    g == Shared() || g == Twice() || g == Copied()
  }

  lemma TheCalls()
    ensures IsCall(Shared()) && IsCall(Twice()) && IsCall(Copied())
    ensures Shared() == Memory(Approving(), 6) && Either(Approving(), 6)
    ensures Twice() == Memory(Editing(), 10) && Either(Editing(), 10)
  {
    hide Memory, Approving, Editing, Copied;
  }

  lemma CallHeap(g: Graph)
    requires IsCall(g)
    ensures Heap(g) && Closed(g) && Wellformed(g, Ref(0)) && Validate(InputOf(g, Ref(0))).None?
    ensures Scalar(ProposalId(InputOf(g, Ref(0)).draft)) && InputOf(g, Ref(0)).outcome.key in {"O-1", "O-3"}
  {
    hide Heap, Closed, Wellformed, InputOf, Validate, ProposalId, Memory, Approving, Editing, Copied, Either;
    TheCalls();
    MemoryIsAccepted(Approving(), 6);
    MemoryIsAccepted(Editing(), 10);
    CopyIsAccepted();
  }

  lemma CallIsLegal(g: Graph)
    requires IsCall(g)
    ensures Legal(g, Ref(0)) && Closed(g) && Wellformed(g, Ref(0)) && Asked(g, Ref(0)) == RequestOf(g, Ref(0))
  {
    CallHeap(g);
    hide IsCall, Heap, Closed, Wellformed, InputOf, ProposalId, RequestOf;
  }

  /** What the call with such an argument asks. */
  function Call(g: Graph): Request
    requires IsCall(g)
  {
    CallIsLegal(g);
    Asked(g, Ref(0))
  }

  lemma CallIs(g: Graph)
    requires IsCall(g)
    ensures Legal(g, Ref(0)) && Heap(g) && Closed(g) && Wellformed(g, Ref(0))
    ensures Call(g) == Asked(g, Ref(0)) == RequestOf(g, Ref(0)) && Call(g).input == InputOf(g, Ref(0))
    ensures Validate(Call(g).input).None? && Call(g).input.outcome.key in {"O-1", "O-3"}
  {
    hide Legal, Asked, RequestOf, Wellformed, Closed, Heap, Validate, InputOf, IsCall;
    CallIsLegal(g);
    CallHeap(g);
    RequestIs(g, Ref(0));
  }

  // ---------------------------------------------------------------- the conflicts

  /** One reference more at the start of a chain. */
  lemma OneMore(g: Graph, a: Id, i: nat, key: string, b: Id, avoid: set<Id>, x: Id)
    requires Holds(g, a, i, Member(key, Ref(b))) && !SecretKey(key) && a !in avoid && Reaches(g, Ref(b), avoid, x)
    ensures Reaches(g, Ref(a), avoid, x)
  {
    ObjectLinks(g, a, i, x, avoid);
    hide SecretKey, Links, ReachesIn;
    assert Container(g, a);
    hide Reaches;
    ReachesThrough(g, a, Ref(b), avoid, x);
  }

  lemma ArrayLeadsToItself(g: Graph, id: Id, avoid: set<Id>)
    requires ArrayAt(g, id) && id !in avoid
    ensures Reaches(g, Ref(id), avoid, id)
  {
    ReachesItself(g, id, avoid);
  }

  /** A column that is neither the lines nor the evidence is no object. */
  lemma ColumnReads(g: Graph, key: string)
    requires Closed(g) && Within(HeapOf(Obj(COLUMNS), 1), g) && key != "lines" && key != "ai_evidence"
    ensures At(g, Ref(1), key).Prim?
  {
    hide *;
    EvidenceHeld(g);
    ColumnsAre();
    forall i | 0 <= i < 11
      ensures g[1].members[i].key == COLUMNS[i].key && (i < 9 ==> g[1].members[i].value.Prim?)
    {
      ChildHeld(g, Obj(COLUMNS), 1, i);
      var k := 2 + MemberContainers(COLUMNS[..i]);
      HeldNode(g, 1, i, Member(COLUMNS[i].key, Placed(COLUMNS[i].value, k)));
      PlacedIs(COLUMNS[i].value, k);
    }
    AtFound(g, 1, key);
  }

  lemma AtFound(g: Graph, n: Id, key: string)
    requires n in g && g[n].ObjectNode?
    requires forall i :: 0 <= i < |g[n].members| && g[n].members[i].key == key ==> g[n].members[i].value.Prim?
    ensures At(g, Ref(n), key).Prim?
  {
    hide Find;
  }

  lemma NotNested()
    ensures "ai_proposal_id" != "lines" && "je_id" != "lines" && "je_number" != "lines" && "idempotency_key" != "lines"
    ensures "ai_proposal_id" != "ai_evidence" && "je_id" != "ai_evidence" && "je_number" != "ai_evidence"
    ensures "idempotency_key" != "ai_evidence"
  {
    assert |"ai_proposal_id"| == 14 && |"je_id"| == 5 && |"je_number"| == 9 && |"idempotency_key"| == 15;
    assert |"lines"| == 5 && |"ai_evidence"| == 11 && "je_id"[0] == 'j' && "lines"[0] == 'l';
  }

  lemma PrimLeadsNowhere(g: Graph, v: Value, x: Id)
    requires v.Prim?
    ensures !Reaches(g, Or(v), {}, x)
  {
    hide ReachesIn;
  }

  lemma NamesArePlain(g: Graph, refs: Id)
    requires Closed(g) && Within(HeapOf(Obj(COLUMNS), 1), g) && Reads(g, refs)
    ensures PlainNames(g, Ref(0))
  {
    hide *;
    NotNested();
    ReadsAre(g, refs);
    DraftIdKeyIs(g, Ref(1));
    forall i, x | 0 <= i < 3
      ensures !Reaches(g, PartValue(g, Ref(0), i), {}, x)
    {
      var key := PartKeys(g, Ref(0))[i];
      PartValueIs(g, Ref(0), i);
      HolderIs(g, Ref(0), i);
      HolderNameIs(i);
      ColumnReads(g, key);
      PrimLeadsNowhere(g, At(g, Ref(1), key), x);
    }
    PlainFrom(g, Ref(0));
  }

  lemma PlainFrom(g: Graph, root: Value)
    requires forall i, x :: 0 <= i < 3 ==> !Reaches(g, PartValue(g, root, i), {}, x)
    ensures PlainNames(g, root)
  {
    hide Reaches, PartValue;
  }

  /** The i-th part of the payload that is a reference. */
  lemma PartIsReference(g: Graph, i: nat, id: Id)
    requires 3 <= i < 7 && At(g, At(g, Ref(0), "outcome"), PartKeys(g, Ref(0))[i]) == Ref(id)
    ensures PartValue(g, Ref(0), i) == Ref(id)
  {
    hide At, PartKeys;
    HolderIs(g, Ref(0), i);
  }

  /** The `n`-th node holds the `i`-th member of its list. */
  lemma NodeHolds(g: Graph, n: Id, ms: seq<Member<Value>>, i: nat)
    requires n in g && g[n] == ObjectNode(ms) && i < |ms|
    ensures Holds(g, n, i, ms[i]) && MembersOf(g, Ref(n)) == ms
  {
  }

  lemma ReferringIs(refs: Id)
    ensures Referring(refs) == [Member("source_refs", Ref(refs))] && REFERENCES.ArrayNode?
  {
  }

  /** The references at `refs`, and what in the heap leads to them. */
  lemma MetadataLeads(o: seq<Member<Value>>, refs: Id, avoid: set<Id>)
    requires Either(o, refs) && avoid !! {8, 9, refs}
    ensures ArrayAt(Memory(o, refs), refs) && Reaches(Memory(o, refs), Ref(refs), avoid, refs)
    ensures Reaches(Memory(o, refs), Ref(8), avoid, refs)
    ensures refs == 10 ==> Reaches(Memory(o, refs), Ref(9), avoid, refs)
  {
    hide *;
    var g := Memory(o, refs);
    MemoryHolds(o, refs);
    MemoryNodes(o, refs);
    EitherRefs(o, refs);
    EvidenceHeld(g);
    ReferringIs(refs);
    ReferringIs(10);
    NodeIsArray(g, 10);
    SourceRefsIsPublic();
    NodeHolds(g, 8, Referring(refs), 0);
    NodeHolds(g, 9, Referring(10), 0);
    ArrayLeadsToItself(g, refs, avoid);
    OneMore(g, 8, 0, "source_refs", refs, avoid, refs);
    if refs == 10 {
      OneMore(g, 9, 0, "source_refs", refs, avoid, refs);
    }
  }

  lemma NodeIsArray(g: Graph, id: Id)
    ensures id in g && g[id].ArrayNode? ==> ArrayAt(g, id)
  {
  }

  lemma SharedConflicts(t: Times)
    ensures IsCall(Shared()) && RecoveryError(NewRow(Call(Shared()), t)).Some?
  {
    hide *;
    TheCalls();
    var g, o := Shared(), Approving();
    CallIs(g);
    MemoryHolds(o, 6);
    MemoryNodes(o, 6);
    MemoryReads(o, 6);
    ReadsAre(g, 6);
    EvidenceHeld(g);
    SourceRefsIsPublic();
    AiEvidenceIsPublic();
    MetadataLeads(o, 6, {0});
    MetadataLeads(o, 6, {});
    OneMore(g, 5, 0, "source_refs", 6, {0}, 6);
    OneMore(g, 1, 10, "ai_evidence", 5, {0}, 6);
    PartValueIs(g, Ref(0), 6);
    PartIsReference(g, 6, 8);
    ArgumentIs();
    NodeHolds(g, 0, Argument(), 0);
    DraftInFront(Argument());
    NamesArePlain(g, 6);
    SharedWithDraftConflicts(g, Ref(0), 0, 6, 6, t);
  }

  lemma DraftInFront(ms: seq<Member<Value>>)
    requires ms != [] && ms[0].key == "draft"
    ensures InFront(ms, 0, "outcome")
  {
    ArgumentNames();
  }

  lemma MetadataInFront(ms: seq<Member<Value>>)
    requires |ms| >= 3 && ms[0].key == "decision" && ms[1].key == "idempotency_key" && ms[2].key == "review_metadata"
    ensures InFront(ms, 2, "patch")
  {
    OutcomeNames();
    assert forall j :: 0 <= j <= 2 ==> ms[j].key != "patch";
  }

  lemma TwiceConflicts(t: Times)
    ensures IsCall(Twice()) && RecoveryError(NewRow(Call(Twice()), t)).Some?
  {
    hide *;
    TheCalls();
    var g, o := Twice(), Editing();
    CallIs(g);
    MemoryHolds(o, 10);
    MemoryNodes(o, 10);
    MemoryReads(o, 10);
    ReadsAre(g, 10);
    OutcomesAre(o, 10);
    MetadataLeads(o, 10, {});
    MetadataLeads(o, 10, {0, 7});
    PartValueIs(g, Ref(0), 5);
    PartIsReference(g, 5, 9);
    HolderIs(g, Ref(0), 4);
    HolderNameIs(4);
    PartValueIs(g, Ref(0), 4);
    PrimLeadsNowhere(g, Prim(Null), 10);
    NodeHolds(g, 7, o, 2);
    MetadataInFront(o);
    NamesArePlain(g, 10);
    MetadataFirstConflicts(g, Ref(0), 2, 10, t);
  }

  /** The approval with the copied references is stored as the tree it shows. */
  lemma CopyIsTree(t: Times)
    ensures IsCall(Copied()) && Call(Copied()).stored == RedactInput(APPROVAL)
    ensures RecoveryError(NewRow(Call(Copied()), t)).None?
  {
    hide *;
    TheCalls();
    var g, l := Copied(), Numbered(Obj(ArgumentShown()), 0);
    CallIs(g);
    CopyShown();
    TreeShown();
    StoredTree(g, Ref(0), l);
    SentIsTree(g, Ref(0), l);
    RequestIs(g, Ref(0));
    RequestTextNotEmpty(g, Ref(0));
    StoredRequestKeepsPayload(APPROVAL);
    PayloadTextIs(APPROVAL);
    PayloadTextIs(RedactInput(APPROVAL));
    NewRowIs(Call(g), t);
    RecoveryErrorIs(NewRow(Call(g), t));
  }

  // ---------------------------------------------------------------- what is stored of the shared approval

  /** The check before a commit reads neither the reason nor the metadata. */
  lemma MetadataIsNotChecked(a: Row, b: Row, t: Times)
    requires a.input.draft == b.input.draft && a.input.actor == b.input.actor
    requires a.input.outcome.decision == b.input.outcome.decision && a.input.outcome.key == b.input.outcome.key
    requires a.input.outcome.patch == b.input.outcome.patch
    ensures CommitError(a, t) == CommitError(b, t)
  {
    SameFirstCheck(a.input, b.input);
    SameApplied(a.input, b.input, t.reviewed);
    hide Validate, DraftError, Applied;
  }

  lemma SameFirstCheck(a: Input, b: Input)
    requires a.draft == b.draft && a.actor == b.actor && a.outcome.decision == b.outcome.decision
    requires a.outcome.key == b.outcome.key && a.outcome.patch == b.outcome.patch
    ensures Validate(a) == Validate(b)
  {
    hide IsAIDraft, TouchesTrace;
  }

  lemma SameApplied(a: Input, b: Input, at: string)
    requires a.draft == b.draft && a.actor == b.actor && a.outcome.decision == b.outcome.decision
    requires a.outcome.key == b.outcome.key && a.outcome.patch == b.outcome.patch
    ensures Applied(a, at) == Applied(b, at)
  {
    hide Redact, Spread, History;
  }

  /** The Draft comes first, so its copy is that of its tree, and the outcome is not among its nodes. */
  lemma DraftFirst(g: Graph)
    requires Heap(g) && Closed(g) && Wellformed(g, Ref(0)) && Within(HeapOf(Obj(COLUMNS), 1), g)
    requires 0 in g && g[0] == ObjectNode(Argument())
    ensures Get(RedactValue(g, Ref(0), {}).0, "draft") == Redact(Obj(COLUMNS)) && 7 !in SeenAt(g, Ref(0), {}, "outcome")
  {
    hide *;
    var ms, l := Argument(), Numbered(Obj(COLUMNS), 1);
    ArgumentIs();
    PublicParts();
    ArgumentNames();
    DraftShown(g);
    NodeHolds(g, 0, ms, 0);
    AtNode(g, 0, ms, 0);
    AtIsWellformed(g, Ref(0), "draft");
    assert {} + {0} == {0} && Nodes(l) !! {0};
    ObjectIsNoDate(g, 0);
    GraphRefinesLinked(g, Ref(1), l, {0});
    TreeShapedIffAliasFree(l, {0});
    CopiedAt(g, Ref(0), {}, "draft");
    SeenAtIs(g, Ref(0), {}, "outcome");
    SeenBeforeIs(g, ms, {0}, "draft");
    SeenBeforeIs(g, ms, {0}, "outcome");
    SeenBeforeIs(g, ms[1..], RedactProperty(g, ms[0], {0}).1, "outcome");
    PropertyIs(g, ms[0], {0});
  }

  lemma ObjectIsNoDate(g: Graph, n: Id)
    requires n in g && g[n].ObjectNode?
    ensures DatesUnseen(g, {n})
  {
  }

  /** The texts of the approval are stored as they are. */
  lemma StoredTexts(g: Graph)
    requires Heap(g) && Closed(g) && Wellformed(g, Ref(0)) && 7 !in SeenAt(g, Ref(0), {}, "outcome") && Reads(g, 6)
    requires {0, 7} <= g.Keys && g[0].ObjectNode? && g[7].ObjectNode?
    ensures (var v := RedactValue(g, Ref(0), {}).0;
             && Get(v, "actor") == Str("controller") && Get(Get(v, "outcome"), "decision") == Str("APPROVE")
             && Get(Get(v, "outcome"), "idempotency_key") == Str("O-1") && Get(Get(v, "outcome"), "patch") == Null)
  {
    hide *;
    PublicParts();
    ReadsAre(g, 6);
    CopiedAt(g, Ref(0), {}, "actor");
    CopiedPart(g, Ref(0), "outcome", "decision");
    CopiedPart(g, Ref(0), "outcome", "idempotency_key");
    CopiedPart(g, Ref(0), "outcome", "patch");
    var before := SeenAt(g, Ref(0), {}, "outcome");
    PrimCopied(g, Str("controller"), SeenBefore(g, MembersOf(g, Ref(0)), {} + {0}, "actor"));
    PrimCopied(g, Str("APPROVE"), SeenAt(g, Ref(7), before, "decision"));
    PrimCopied(g, Str("O-1"), SeenAt(g, Ref(7), before, "idempotency_key"));
    PrimCopied(g, Null, SeenAt(g, Ref(7), before, "patch"));
  }

  lemma PrimCopied(g: Graph, j: Json, seen: set<Id>)
    requires Closed(g) && (j.Str? || j.Null?)
    ensures Wellformed(g, Prim(j)) && RedactValue(g, Prim(j), seen).0 == j
  {
  }

  lemma RedactedApproval()
    ensures (var b := RedactInput(APPROVAL);
             && b.draft == Redact(Obj(COLUMNS)) && b.actor == "controller" && b.outcome.decision == "APPROVE"
             && b.outcome.key == "O-1" && b.outcome.patch == Null)
  {
    assert Redact(Null) == Null;
    hide Redact;
  }

  lemma SharedStored()
    ensures IsCall(Shared())
    ensures (var a, b := Call(Shared()).stored, RedactInput(APPROVAL);
             && a.draft == b.draft && a.actor == b.actor && a.outcome.decision == b.outcome.decision
             && a.outcome.key == b.outcome.key && a.outcome.patch == b.outcome.patch)
  {
    hide *;
    TheCalls();
    var g, o := Shared(), Approving();
    CallIs(g);
    MemoryHolds(o, 6);
    MemoryNodes(o, 6);
    MemoryReads(o, 6);
    DraftFirst(g);
    StoredTexts(g);
    RequestIs(g, Ref(0));
    TreeParts(RedactValue(g, Ref(0), {}).0);
    TextOfText(Str("APPROVE"));
    TextOfText(Str("O-1"));
    TextOfText(Str("controller"));
    RedactedApproval();
  }

  lemma ApprovalsCommit(t0: Times, t: Times)
    ensures IsCall(Shared()) && CommitError(NewRow(Call(Shared()), t0), t).None?
    ensures IsCall(Copied()) && CommitError(NewRow(Call(Copied()), t0), t).None?
  {
    hide *;
    TheCalls();
    ApprovalCommits(t0, t);
    TreeRequestIs(APPROVAL);
    var row := NewRow(TreeRequest(APPROVAL), t0);
    NewRowIs(TreeRequest(APPROVAL), t0);
    NewRowIs(Call(Shared()), t0);
    NewRowIs(Call(Copied()), t0);
    SharedStored();
    CopyIsTree(t0);
    MetadataIsNotChecked(NewRow(Call(Shared()), t0), row, t);
    MetadataIsNotChecked(NewRow(Call(Copied()), t0), row, t);
  }

  // ---------------------------------------------------------------- the example

  /** What a crash between the writes leaves of such a call. */
  function Crashed(g: Graph, t0: Times, crash: Fault): Doc
    requires IsCall(g)
  {
    Apply(EMPTY, Call(g), t0, Kept, crash).1
  }

  /** Recovery reports a conflict and changes nothing. */
  predicate Conflicts(doc: Doc, t: Times) {
    Recover(doc, _ => Attempt(t, Kept)) == ([Failed(RecoveryConflict)], doc)
  }

  /** Recovery meets one row and commits it. */
  predicate Recovers(doc: Doc, t: Times) {
    var replies := Recover(doc, _ => Attempt(t, Kept)).0; |replies| == 1 && replies[0].Done?
  }

  /**
   * All three calls pass the first check. After a crash between the writes, recovery reports a conflict for the
   * approval that holds the Draft's own references and for the edit that holds one array of references twice, and
   * commits the approval that holds a copy. Calling again with either approval commits it.
   */
  lemma SharedReferencesExample(t0: Times, crash: Fault, t: Times, first: Fault)
    requires !crash.Kept?
    ensures IsCall(Shared()) && IsCall(Twice()) && IsCall(Copied())
    ensures Validate(Call(Shared()).input).None? && Validate(Call(Twice()).input).None? && Validate(Call(Copied()).input).None?
    ensures Conflicts(Crashed(Shared(), t0, crash), t) && Conflicts(Crashed(Twice(), t0, crash), t)
    ensures Recovers(Crashed(Copied(), t0, crash), t)
    ensures Apply(Crashed(Shared(), t0, crash), Call(Shared()), t, first, Kept).0.Done?
    ensures Apply(Crashed(Copied(), t0, crash), Call(Copied()), t, first, Kept).0.Done?
  {
    hide *;
    TheCalls();
    SharedConflicts(t0);
    TwiceConflicts(t0);
    CopyIsTree(t0);
    ApprovalsCommit(t0, t);
    CrashedCall(Shared(), t0, crash, t, first);
    CrashedCall(Twice(), t0, crash, t, first);
    CrashedCall(Copied(), t0, crash, t, first);
  }

  lemma CrashedIs(g: Graph, t0: Times, crash: Fault)
    requires IsCall(g)
    ensures Crashed(g, t0, crash) == Apply(EMPTY, Call(g), t0, Kept, crash).1
  {
    hide Apply, Call;
  }

  lemma ConflictsIs(doc: Doc, t: Times)
    ensures Conflicts(doc, t) <==> Recover(doc, _ => Attempt(t, Kept)) == ([Failed(RecoveryConflict)], doc)
    ensures (var replies := Recover(doc, _ => Attempt(t, Kept)).0; Recovers(doc, t) <==> |replies| == 1 && replies[0].Done?)
  {
    hide Recover;
  }

  lemma CrashedCall(g: Graph, t0: Times, crash: Fault, t: Times, first: Fault)
    requires IsCall(g) && !crash.Kept?
    ensures Validate(Call(g).input).None?
    ensures (var crashed, conflict := Crashed(g, t0, crash), RecoveryError(NewRow(Call(g), t0)).Some?;
             && (conflict ==> Conflicts(crashed, t))
             && (CommitError(NewRow(Call(g), t0), t).None? ==>
                   (!conflict ==> Recovers(crashed, t)) && Apply(crashed, Call(g), t, first, Kept).0.Done?))
  {
    hide *;
    EmptyIsFold();
    CallIs(g);
    LegalIsStorable(g, Ref(0));
    CrashedIs(g, t0, crash);
    NothingStored(Call(g).input.outcome.key);
    SharedRequestNotRecoveredIff(EMPTY, [], g, Ref(0), t0, crash, t);
    NoConflictIff(g, Ref(0), t0);
    ConflictsIs(Crashed(g, t0, crash), t);
    if CommitError(NewRow(Call(g), t0), t).None? {
      ReplayReachesUninterrupted(EMPTY, [], Call(g), t0, crash, t, first);
    }
  }
}
