/**
 * Crashes between the two writes: replaying the call reaches the uninterrupted document, while recovery
 * reaches it exactly when the draft has no nested content of its own left to lose.
 */
module ReviewCrash {
  import opened Json
  import opened Redaction
  import opened Secrets
  import opened ReviewOutcome
  import opened ReviewLog
  import opened ReviewWrite
  import opened ReviewInvariant
  import opened ReviewSteps
  import opened ReviewRuns
  import opened ReviewDrafts
  import opened Canonical

  // ---------------------------------------------------------------- replaying the call

  lemma {:induction false} FindAppended(rows: seq<Row>, row: Row)
    requires FindRow(rows, row.key).None?
    ensures FindRow(rows + [row], row.key) == Some(row)
  {
    hide RedactInput;
    if rows == [] {
      assert rows + [row] == [row];
    } else {
      assert (rows + [row])[1..] == rows[1..] + [row];
      FindAppended(rows[1..], row);
    }
  }

  lemma NewRowParts(req: Request, t: Times)
    ensures NewRow(req, t).key == req.input.outcome.key && NewRow(req, t).canonical == req.canonical
    ensures NewRow(req, t).state.Prepared? && NewRow(req, t).createdAt == t.created && NewRow(req, t).input == req.stored
    ensures forall u: Times :: u.created == t.created ==> NewRow(req, u) == NewRow(req, t)
  {
    hide RedactInput, PayloadText;
  }

  lemma CommitClock(doc: Doc, row: Row, t: Times, u: Times, recovered: bool, shared: bool)
    requires t.reviewed == u.reviewed && t.occurred == u.occurred && t.committed == u.committed
    ensures CommitDoc(doc, row, t, recovered, shared) == CommitDoc(doc, row, u, recovered, shared)
    ensures CommitError(row, t) == CommitError(row, u)
  {
    hide Validate, DraftError, Applied, Reviewed, MarkRows, OtherDrafts, PriorRevision;
  }

  /** The document between the two writes of a first call. */
  lemma AfterIntent(doc: Doc, log: seq<Entry>, req: Request, t: Times, second: Fault)
    requires Inv(doc, log) && Storable(req) && Validate(req.input).None?
    requires FindRow(doc.wals, req.input.outcome.key).None?
    requires CommitError(NewRow(req, t), t).Some? || !second.Kept?
    ensures Apply(doc, req, t, Kept, second).0.Failed?
    ensures Apply(doc, req, t, Kept, second).1 == doc.(wals := doc.wals + [NewRow(req, t)])
    ensures Inv(doc.(wals := doc.wals + [NewRow(req, t)]), log)
    ensures FindRow(doc.wals + [NewRow(req, t)], req.input.outcome.key) == Some(NewRow(req, t))
  {
    hide *;
    FirstCallProceeds(doc, req);
    ProceedsParts(doc, req, t);
    KeptIs();
    ApplyStep(doc, log, req, t, Kept, second);
    NewRowParts(req, t);
    FindAppended(doc.wals, NewRow(req, t));
  }

  lemma KeptIs()
    ensures Kept.Kept?
  {
  }

  lemma FirstCallProceeds(doc: Doc, req: Request)
    requires Validate(req.input).None? && FindRow(doc.wals, req.input.outcome.key).None?
    ensures Proceeds(doc, req)
  {
    hide Validate;
  }

  lemma ReplayProceeds(doc: Doc, req: Request, row: Row)
    requires Validate(req.input).None? && FindRow(doc.wals, req.input.outcome.key) == Some(row)
    requires row.canonical == req.canonical && row.state.Prepared?
    ensures Proceeds(doc, req)
    ensures forall t: Times :: WorkRow(doc, req, t) == row && Intended(doc, req, t) == doc
  {
    hide Validate, PayloadText, NewRow;
  }

  /**
   * A crash between the writes, then the same call again: the document of the uninterrupted call, byte for
   * byte but for the clock.
   */
  lemma ReplayReachesUninterrupted(doc: Doc, log: seq<Entry>, req: Request, t0: Times, crash: Fault, t: Times, first: Fault)
    requires Inv(doc, log) && Storable(req) && Validate(req.input).None?
    requires FindRow(doc.wals, req.input.outcome.key).None? && !crash.Kept?
    requires CommitError(NewRow(req, t0), t).None?
    ensures (var crashed := Apply(doc, req, t0, Kept, crash).1;
             var whole := Apply(doc, req, t.(created := t0.created), Kept, Kept);
             var replay := Apply(crashed, req, t, first, Kept);
             replay.0.Done? && whole.0.Done? && replay.1 == whole.1)
  {
    hide *;
    var u, row := t.(created := t0.created), NewRow(req, t0);
    AfterIntent(doc, log, req, t0, crash);
    var crashed := doc.(wals := doc.wals + [row]);
    NewRowParts(req, t0);
    ReplayProceeds(crashed, req, row);
    KeptIs();
    ApplyStep(crashed, log, req, t, first, Kept);
    FirstCallProceeds(doc, req);
    ProceedsParts(doc, req, u);
    CommitClock(crashed, row, t, u, false, false);
    ApplyStep(doc, log, req, u, Kept, Kept);
  }

  /** A committed outcome answers every further call of its request without writing. */
  lemma CommittedIsReused(doc: Doc, req: Request, t: Times, first: Fault, second: Fault, row: Row)
    requires Validate(req.input).None? && FindRow(doc.wals, req.input.outcome.key) == Some(row)
    requires row.state.Committed? && row.canonical == req.canonical
    ensures Apply(doc, req, t, first, second).0.Reused? && Apply(doc, req, t, first, second).1 == doc
  {
    hide Validate, PayloadText, Commit, NewRow, FindDraft, FindEvent;
  }

  lemma {:induction false} FindRowByIndex(rows: seq<Row>, i: nat)
    requires UniqueRows(rows) && i < |rows|
    ensures FindRow(rows, rows[i].key) == Some(rows[i])
  {
    if i > 0 {
      FindRowByIndex(rows[1..], i - 1);
    }
  }

  lemma NewestEntryRow(rows: seq<Row>, log: seq<Entry>, e: Entry)
    requires Follows(rows, log + [e])
    ensures (var r := FindRow(rows, e.row.key);
             r.Some? && r.value.state.Committed? && r.value.canonical == e.row.canonical && r.value.input == e.row.input)
  {
    hide ProposalId, Count;
    assert (log + [e])[|log|] == e;
    assert HasRow(rows, e.row.key);
    var i :| 0 <= i < |rows| && rows[i].key == e.row.key;
    FindRowByIndex(rows, i);
    assert RowFollows(log + [e], rows[i]);
    AppendLast(log, e);
  }

  /** Once an outcome is committed, the same call writes nothing again: no second event, revision or draft. */
  lemma DoneThenReused(doc: Doc, log: seq<Entry>, req: Request, t: Times, first: Fault, second: Fault,
                       t': Times, first': Fault, second': Fault)
    requires Inv(doc, log) && Storable(req)
    requires Apply(doc, req, t, first, second).0.Done?
    ensures (var after := Apply(doc, req, t, first, second).1;
             var again := Apply(after, req, t', first', second');
             again.0.Reused? && again.1 == after)
  {
    hide *;
    ApplyStep(doc, log, req, t, first, second);
    DoneIsNotFailed(Apply(doc, req, t, first, second).0);
    var after, e := Apply(doc, req, t, first, second).1, Entry(WorkRow(doc, req, t), t, false, false);
    ProceedsParts(doc, req, t);
    WorkRowPayload(doc, req, t);
    InvParts(after, log + [e]);
    NewestEntryRow(after.wals, log, e);
    CommittedIsReused(after, req, t', first', second', FindRow(after.wals, req.input.outcome.key).value);
  }

  lemma DoneIsNotFailed(r: Reply)
    ensures r.Done? ==> !r.Failed?
  {
  }

  lemma WorkRowPayload(doc: Doc, req: Request, t: Times)
    ensures Proceeds(doc, req) ==>
              WorkRow(doc, req, t).canonical == req.canonical && WorkRow(doc, req, t).key == req.input.outcome.key
  {
    hide Validate, PayloadText, RedactInput;
  }

  // ---------------------------------------------------------------- recovering instead

  /** Same members in the same order, with the same values under every name but the listed ones. */
  predicate AgreeOutside(a: seq<Member<Json>>, b: seq<Member<Json>>, names: set<string>) {
    |a| == |b|
    && forall i :: 0 <= i < |a| ==> a[i].key == b[i].key && (a[i].value == b[i].value || a[i].key in names)
  }

  lemma {:induction false} SameKeysFind(a: seq<Member<Json>>, b: seq<Member<Json>>, key: string)
    requires |a| == |b| && forall i :: 0 <= i < |a| ==> a[i].key == b[i].key
    ensures Find(a, key).Some? <==> Find(b, key).Some?
  {
    if a != [] {
      SameKeysFind(a[1..], b[1..], key);
    }
  }

  lemma {:induction false} OverwriteAgree(
    a: seq<Member<Json>>, b: seq<Member<Json>>, over: seq<Member<Json>>, names: set<string>)
    requires AgreeOutside(a, b, names)
    ensures AgreeOutside(Overwrite(a, over), Overwrite(b, over), names - KeysOf(over))
  {
    if a != [] {
      OverwriteAgree(a[1..], b[1..], over, names);
    }
  }

  lemma {:induction false} AddedAgree(a: seq<Member<Json>>, b: seq<Member<Json>>, over: seq<Member<Json>>, names: set<string>)
    requires AgreeOutside(a, b, names)
    ensures Added(a, over) == Added(b, over)
  {
    if over != [] {
      SameKeysFind(a, b, over[0].key);
      AddedAgree(a, b, over[1..], names);
    }
  }

  lemma SpreadAgree(a: seq<Member<Json>>, b: seq<Member<Json>>, over: seq<Member<Json>>, names: set<string>)
    requires AgreeOutside(a, b, names)
    ensures AgreeOutside(Spread(a, over), Spread(b, over), names - KeysOf(over))
  {
    OverwriteAgree(a, b, over, names);
    AddedAgree(a, b, over, names);
  }

  /** Members that every outcome writes anew. */
  predicate SetByReview(input: Input, key: string) {
    key == "ai_review_revision" || Find(ReviewMembers(input, ""), key).Some?
  }

  /** The draft brings nested content of its own into the reviewed draft. */
  predicate BringsNested(input: Input, key: string) {
    var v := Find(Members(input.draft), key);
    v.Some? && !Scalar(v.value) && !SetByReview(input, key) && Find(PatchMembers(input), key).None?
  }

  predicate HasNestedHistory(input: Input) {
    exists j :: 0 <= j < |History(input.draft)| && !Scalar(History(input.draft)[j])
  }

  /** What the stored request shows: recovering it would lose part of the draft. */
  ghost predicate LosesContent(input: Input) {
    HasNestedHistory(input) || exists key :: BringsNested(input, key)
  }

  lemma StoredBrings(input: Input, key: string)
    ensures BringsNested(RedactInput(input), key) <==> !SecretKey(key) && BringsNested(input, key)
  {
    RedactFind(Members(input.draft), key);
    RedactIdempotent(input.outcome.patch);
    hide Redact, SecretKey, ReviewMembers, Find;
    SameReviewNames(input, key);
    assert Members(Redact(input.draft)) == RedactMembers(Members(input.draft)) by {
      RedactedMembers(input.draft);
    }
    hide RedactMembers, Members;
    assert PatchMembers(RedactInput(input)) == PatchMembers(input);
  }

  lemma RedactedMembers(v: Json)
    ensures Members(Redact(v)) == RedactMembers(Members(v))
  {
  }

  lemma SameReviewNames(input: Input, key: string)
    ensures SetByReview(RedactInput(input), key) <==> SetByReview(input, key)
  {
    SameKeysFind(ReviewMembers(RedactInput(input), ""), ReviewMembers(input, ""), key);
    hide History, ReviewEntry, Redact;
  }

  lemma StoredHistory(input: Input)
    ensures HasNestedHistory(RedactInput(input)) <==> HasNestedHistory(input)
  {
    HistoryIsPublic();
    RedactGet(input.draft, "history");
    hide SecretKey, Get;
    var h := History(input.draft);
    assert History(RedactInput(input).draft) == RedactItems(h);
    forall j | 0 <= j < |h|
      ensures Scalar(RedactItems(h)[j]) <==> Scalar(h[j])
    {
      RedactItemsAt(h, j);
    }
  }

  /** For an argument that holds no object twice, the same can be seen before the call. */
  lemma StoredLosesIff(input: Input)
    ensures LosesContent(RedactInput(input))
       <==> HasNestedHistory(input) || exists key :: !SecretKey(key) && BringsNested(input, key)
  {
    hide SecretKey, BringsNested, HasNestedHistory, RedactInput;
    StoredHistory(input);
    forall key
      ensures BringsNested(RedactInput(input), key) <==> !SecretKey(key) && BringsNested(input, key)
    {
      StoredBrings(input, key);
    }
  }

  lemma ScalarHistoryMet(input: Input)
    requires !HasNestedHistory(input)
    ensures ReviewMembers(MetDraft(input), "") == ReviewMembers(input, "")
    ensures forall at: string :: ReviewMembers(MetDraft(input), at) == ReviewMembers(input, at)
  {
    MetHistory(input);
    assert MetItems(History(input.draft)) == History(input.draft);
  }

  predicate PlainDraft(input: Input) {
    input.draft.Obj?
    && forall j, k :: 0 <= j < k < |input.draft.members| ==> input.draft.members[j].key != input.draft.members[k].key
  }

  lemma SetByReviewAnyTime(input: Input, at: string, key: string)
    ensures Find(ReviewMembers(input, at), key).Some? <==> Find(ReviewMembers(input, ""), key).Some?
  {
    SameKeysFind(ReviewMembers(input, at), ReviewMembers(input, ""), key);
  }

  /** The names under which a shared draft may differ from its original. */
  function NestedNames(input: Input): set<string>
    requires input.draft.Obj?
  {
    set i | 0 <= i < |input.draft.members| && !Scalar(input.draft.members[i].value) :: input.draft.members[i].key
  }

  lemma NestedNamesAreOverwritten(input: Input, at: string, revision: nat)
    requires PlainDraft(input) && !LosesContent(input)
    ensures NestedNames(input) - KeysOf(PatchMembers(input)) - KeysOf(ReviewMembers(input, at))
            - KeysOf([Member("ai_review_revision", Num(10000 * revision))]) == {}
  {
    var rev := [Member("ai_review_revision", Num(10000 * revision))];
    forall key | key in NestedNames(input)
      ensures key in KeysOf(PatchMembers(input)) || key in KeysOf(ReviewMembers(input, at)) || key in KeysOf(rev)
    {
      var i :| 0 <= i < |input.draft.members| && !Scalar(input.draft.members[i].value) && input.draft.members[i].key == key;
      FindAt(input.draft.members, i);
      assert !BringsNested(input, key);
      KeysFound(PatchMembers(input), key);
      KeysFound(ReviewMembers(input, at), key);
      SetByReviewAnyTime(input, at, key);
      assert rev[0].key in KeysOf(rev);
    }
  }

  lemma MetAgrees(input: Input)
    requires input.draft.Obj?
    ensures AgreeOutside(Members(MetDraft(input).draft), Members(input.draft), NestedNames(input))
  {
  }

  lemma AgreeNowhereElse(a: seq<Member<Json>>, b: seq<Member<Json>>)
    requires AgreeOutside(a, b, {})
    ensures a == b
  {
  }

  lemma NothingToLose(input: Input, at: string, revision: nat)
    requires PlainDraft(input) && !LosesContent(input)
    ensures Reviewed(MetDraft(input), at, revision) == Reviewed(input, at, revision)
  {
    hide *;
    PlainIsObject(input);
    LosesParts(input);
    var met, rev := MetDraft(input), [Member("ai_review_revision", Num(10000 * revision))];
    var a, b := Members(met.draft), Members(input.draft);
    var p, r := PatchMembers(input), ReviewMembers(input, at);
    ReviewedIs(input, at, revision);
    ReviewedIs(met, at, revision);
    MetPatch(input);
    ScalarHistoryMet(input);
    MetAgrees(input);
    SpreadAgree(a, b, p, NestedNames(input));
    SpreadAgree(Spread(a, p), Spread(b, p), r, NestedNames(input) - KeysOf(p));
    SpreadAgree(Spread(Spread(a, p), r), Spread(Spread(b, p), r), rev, NestedNames(input) - KeysOf(p) - KeysOf(r));
    NestedNamesAreOverwritten(input, at, revision);
    AgreeNowhereElse(Spread(Spread(Spread(a, p), r), rev), Spread(Spread(Spread(b, p), r), rev));
  }

  lemma PlainIsObject(input: Input)
    ensures PlainDraft(input) ==> input.draft.Obj?
  {
  }

  lemma LosesParts(input: Input)
    ensures LosesContent(input) <==> HasNestedHistory(input) || exists key :: BringsNested(input, key)
  {
  }

  lemma FixedSecret(d: Json, key: string)
    requires Redact(d) == d && Find(Members(d), key).Some? && SecretKey(key)
    ensures Find(Members(d), key) == Some(Str(MASK))
  {
    RedactFind(Members(d), key);
  }

  lemma RedactedFind(d: Json, key: string)
    requires !SecretKey(key)
    ensures Find(Members(Redact(d)), key)
         == if Find(Members(d), key).Some? then Some(Redact(Find(Members(d), key).value)) else None
  {
    RedactFind(Members(d), key);
  }

  /** Where a reviewed draft's own member ends up after a shared write. */
  lemma NestedMemberIsLost(input: Input, at: string, revision: nat, key: string)
    requires Redact(input.draft) == input.draft && BringsNested(input, key)
    ensures Find(Members(Redact(Reviewed(MetDraft(input), at, revision))), key) == Some(Str(CIRCULAR))
    ensures (var kept := Find(Members(Redact(Reviewed(input, at, revision))), key);
             kept.Some? && !Scalar(kept.value))
  {
    hide Reviewed, PatchMembers, ReviewMembers, SecretKey, RedactMembers, MetMembers;
    var v := Find(Members(input.draft), key).value;
    if SecretKey(key) {
      FixedSecret(input.draft, key);
    }
    HistoryIsSetByReview(input);
    MetFind(Members(input.draft), key);
    MetMembersOf(input);
    MetPatch(input);
    SetByReviewAnyTime(input, at, key);
    SetByReviewAnyDraft(input, at, key);
    ReviewedGet(input, at, revision, key);
    ReviewedGet(MetDraft(input), at, revision, key);
    RedactedFind(Reviewed(input, at, revision), key);
    RedactedFind(Reviewed(MetDraft(input), at, revision), key);
  }

  lemma MetMembersOf(input: Input)
    ensures Members(MetDraft(input).draft) == MetMembers(Members(input.draft))
  {
  }

  lemma SetByReviewAnyDraft(input: Input, at: string, key: string)
    ensures Find(ReviewMembers(MetDraft(input), at), key).Some? <==> Find(ReviewMembers(input, at), key).Some?
  {
    SameKeysFind(ReviewMembers(MetDraft(input), at), ReviewMembers(input, at), key);
  }

  lemma HistoryIsSetByReview(input: Input)
    ensures SetByReview(input, "history")
    ensures forall at: string, met: Input ::
              Find(ReviewMembers(met, at), "history") == Some(Arr(History(met.draft) + [ReviewEntry(met, at)]))
  {
    hide History;
    forall at: string, met: Input
      ensures Find(ReviewMembers(met, at), "history") == Some(Arr(History(met.draft) + [ReviewEntry(met, at)]))
    {
      var ms := ReviewMembers(met, at);
      assert |ms[0].key| == 14 && |ms[1].key| == 15 && |ms[2].key| == 14 && |ms[3].key| == 14 && |ms[4].key| == 20;
      FindSkips(ms, 5, "history");
    }
  }

  lemma ReviewedHistory(input: Input, at: string, revision: nat)
    ensures Find(Members(Redact(Reviewed(input, at, revision))), "history")
         == Some(Redact(Arr(History(input.draft) + [ReviewEntry(input, at)])))
  {
    hide Reviewed, ReviewMembers, PatchMembers, History, ReviewEntry, SecretKey;
    HistoryIsSetByReview(input);
    HistoryIsPublic();
    ReviewedGet(input, at, revision, "history");
    assert |"ai_review_revision"| == 18;
    RedactedFind(Reviewed(input, at, revision), "history");
  }

  lemma {:induction false} RedactItemsAt(items: seq<Json>, i: nat)
    requires i < |items|
    ensures RedactItems(items)[i] == Redact(items[i])
  {
    if i > 0 {
      RedactItemsAt(items[1..], i - 1);
    }
  }

  lemma NestedEntryDiffers(met: seq<Json>, own: seq<Json>, x: Json, y: Json, j: nat)
    requires met == MetItems(own) && j < |own| && !Scalar(own[j])
    ensures Redact(Arr(met + [x])) != Redact(Arr(own + [y]))
  {
    hide *;
    var a, b := met + [x], own + [y];
    MarkerStandsOut(own, j);
    RedactItemsAt(a, j);
    RedactItemsAt(b, j);
    ArrayRedacted(a);
    ArrayRedacted(b);
    assert a[j] == met[j] && b[j] == own[j];
    assert RedactItems(a)[j] != RedactItems(b)[j];
  }

  lemma MarkerStandsOut(vs: seq<Json>, j: nat)
    requires j < |vs| && !Scalar(vs[j])
    ensures Redact(MetItems(vs)[j]) != Redact(vs[j])
  {
    hide MetItems;
  }

  lemma NestedHistoryIsLost(input: Input, at: string, revision: nat)
    requires HasNestedHistory(input)
    ensures Redact(Reviewed(MetDraft(input), at, revision)) != Redact(Reviewed(input, at, revision))
  {
    var j :| 0 <= j < |History(input.draft)| && !Scalar(History(input.draft)[j]);
    hide *;
    var met := MetDraft(input);
    ReviewedHistory(input, at, revision);
    ReviewedHistory(met, at, revision);
    MetHistory(input);
    NestedEntryDiffers(History(met.draft), History(input.draft), ReviewEntry(met, at), ReviewEntry(input, at), j);
  }

  /** A shared write keeps the reviewed draft exactly when the request brings nothing nested into it. */
  lemma SharedWriteKeepsDraftIff(input: Input, at: string, revision: nat)
    requires PlainDraft(input) && Redact(input.draft) == input.draft
    ensures Redact(Reviewed(MetDraft(input), at, revision)) == Redact(Reviewed(input, at, revision)) <==> !LosesContent(input)
  {
    hide *;
    LosesParts(input);
    if !LosesContent(input) {
      NothingToLose(input, at, revision);
    } else if HasNestedHistory(input) {
      NestedHistoryIsLost(input, at, revision);
    } else {
      var key :| BringsNested(input, key);
      NestedMemberIsLost(input, at, revision, key);
      MarkerIsScalar();
    }
  }

  lemma MarkerIsScalar()
    ensures Scalar(Str(CIRCULAR))
  {
  }

  /** Rows that differ at most in when they were recovered. */
  predicate SameButRecovery(a: seq<Row>, b: seq<Row>) {
    |a| == |b| && forall i :: 0 <= i < |a| ==> a[i].(recoveredAt := "") == b[i].(recoveredAt := "")
  }

  /** The same row committed by recovery, as a row of the document it writes, and by a repeated call. */
  lemma TwoCommits(doc: Doc, row: Row, t: Times)
    ensures (var a := RedactDoc(CommitDoc(doc, row, t, false, false));
             var b := RedactDoc(CommitDoc(doc, row, t, true, true));
             var kept := OtherDrafts(doc.drafts, ProposalId(row.input.draft));
             && a.events == b.events
             && SameButRecovery(a.wals, b.wals)
             && |a.drafts| == |b.drafts| == |kept| + 1
             && a.drafts[..|kept|] == b.drafts[..|kept|]
             && a.drafts[|kept|] == Redact(Reviewed(row.input, t.reviewed, NextRevision(doc, row)))
             && b.drafts[|kept|] == Redact(Reviewed(MetDraft(row.input), t.reviewed, NextRevision(doc, row))))
  {
    hide Redact, RedactInput, Reviewed, MetDraft, OtherDrafts, NewEvent, NextRevision, ProposalId;
    var a, b := RedactDoc(CommitDoc(doc, row, t, false, false)), RedactDoc(CommitDoc(doc, row, t, true, true));
    var n := |OtherDrafts(doc.drafts, ProposalId(row.input.draft))|;
    forall i | 0 <= i < |a.wals|
      ensures a.wals[i].(recoveredAt := "") == b.wals[i].(recoveredAt := "")
    {
    }
    forall i | 0 <= i < n
      ensures a.drafts[i] == b.drafts[i]
    {
    }
  }

  lemma {:induction false} RedactKeepsKeys(ms: seq<Member<Json>>)
    ensures forall i :: 0 <= i < |ms| ==> RedactMembers(ms)[i].key == ms[i].key
  {
    hide SecretKey;
    if ms != [] {
      RedactKeepsKeys(ms[1..]);
    }
  }

  lemma StoredDraftIsPlain(input: Input)
    requires PlainDraft(input)
    ensures PlainDraft(RedactInput(input)) && Redact(RedactInput(input).draft) == RedactInput(input).draft
  {
    RedactKeepsKeys(input.draft.members);
    RedactIdempotent(input.draft);
  }

  lemma {:induction false} OnlyThisRowPending(rows: seq<Row>, row: Row)
    requires row.state.Prepared?
    ensures PreparedRows(rows + [row]) == PreparedRows(rows) + [row]
  {
    hide PreparedRows;
    OnePrepared(row);
    if rows == [] {
      assert rows + [row] == [row];
    } else {
      assert (rows + [row])[1..] == rows[1..] + [row];
      OnlyThisRowPending(rows[1..], row);
      PreparedHead(rows);
      PreparedHead(rows + [row]);
    }
  }

  lemma OnePrepared(row: Row)
    requires row.state.Prepared?
    ensures PreparedRows([row]) == [row] && PreparedRows([]) == []
  {
    assert [row][1..] == [];
  }

  lemma PreparedHead(rows: seq<Row>)
    requires rows != []
    ensures PreparedRows(rows) == (if rows[0].state.Prepared? then [rows[0]] else []) + PreparedRows(rows[1..])
  {
  }

  lemma RecoverOne(doc: Doc, log: seq<Entry>, row: Row, t: Times)
    requires Inv(doc, log) && PreparedRows(doc.wals) == [row] && CommitError(row, t).None? && RecoveryError(row).None?
    ensures Recover(doc, _ => Attempt(t, Kept)).1 == RedactDoc(CommitDoc(doc, row, t, true, true))
  {
    hide *;
    InvParts(doc, log);
    FollowsUnique(doc.wals, log);
    PreparedRowsExact(doc.wals);
    StillPendingOne(doc.wals, row);
    RecoverIs(doc, _ => Attempt(t, Kept));
    RecoverUnfolds(doc, [row], 0, _ => Attempt(t, Kept));
    KeptIs();
    CommitStep(doc, log, Entry(row, t, true, true), Kept);
    NothingRecovered(RedactDoc(CommitDoc(doc, row, t, true, true)), log + [Entry(row, t, true, true)], [row], 1,
                     _ => Attempt(t, Kept));
  }

  lemma StillPendingOne(rows: seq<Row>, row: Row)
    requires StillPending(rows, [row], 0)
    ensures row in rows && row.state.Prepared?
  {
    assert [row][0] == row;
  }

  /**
   * A crash between the writes, then recovery. When the payload text read back from the stored request differs,
   * recovery reports the conflict and commits nothing. Otherwise events and rows are those of the uninterrupted
   * call up to the recovery time, and so are the drafts of all other proposals; the recovered draft itself is the
   * same exactly when the stored request brings nothing nested into it.
   */
  lemma RecoveryReachesUninterruptedIff(doc: Doc, log: seq<Entry>, req: Request, t0: Times, crash: Fault, t: Times)
    requires Inv(doc, log) && Storable(req) && Validate(req.input).None? && PlainDraft(req.stored)
    requires FindRow(doc.wals, req.input.outcome.key).None? && PreparedRows(doc.wals) == [] && !crash.Kept?
    requires CommitError(NewRow(req, t0), t).None?
    ensures (var crashed := Apply(doc, req, t0, Kept, crash).1;
             var whole := Apply(doc, req, t.(created := t0.created), Kept, Kept).1;
             var (replies, recovered) := Recover(crashed, _ => Attempt(t, Kept));
             && (RecoveryError(NewRow(req, t0)).Some? ==> replies == [Failed(RecoveryConflict)] && recovered == crashed)
             && (RecoveryError(NewRow(req, t0)).None? ==>
                   && recovered.events == whole.events
                   && SameButRecovery(whole.wals, recovered.wals)
                   && |recovered.drafts| == |whole.drafts| > 0
                   && recovered.drafts[..|whole.drafts| - 1] == whole.drafts[..|whole.drafts| - 1]
                   && (recovered.drafts == whole.drafts <==> !LosesContent(req.stored))))
  {
    hide *;
    var row := NewRow(req, t0);
    AfterIntent(doc, log, req, t0, crash);
    var crashed := doc.(wals := doc.wals + [row]);
    NewRowParts(req, t0);
    OnlyThisRowPending(doc.wals, row);
    assert [] + [row] == [row];
    if RecoveryError(row).Some? {
      RecoverIs(crashed, _ => Attempt(t, Kept));
      RecoverUnfolds(crashed, [row], 0, _ => Attempt(t, Kept));
    } else {
      RecoverOne(crashed, log, row, t);
      ReplayReachesUninterrupted(doc, log, req, t0, crash, t, Kept);
      ReplayProceeds(crashed, req, row);
      KeptIs();
      ApplyStep(crashed, log, req, t, Kept, Kept);
      TwoCommits(crashed, row, t);
      StorableCopy(req);
      SharedWriteKeepsDraftIff(row.input, t.reviewed, NextRevision(crashed, row));
      LastDecides(Recover(crashed, _ => Attempt(t, Kept)).1.drafts,
                  Apply(doc, req, t.(created := t0.created), Kept, Kept).1.drafts);
    }
  }

  lemma StorableCopy(req: Request)
    requires Storable(req)
    ensures Redact(req.stored.draft) == req.stored.draft
  {
    hide Validate, ProposalId, Redact;
  }

  lemma LastDecides(a: seq<Json>, b: seq<Json>)
    requires |a| == |b| > 0 && a[..|b| - 1] == b[..|b| - 1]
    ensures a == b <==> a[|b| - 1] == b[|b| - 1]
  {
    assert a == a[..|b| - 1] + [a[|b| - 1]];
    assert b == b[..|b| - 1] + [b[|b| - 1]];
  }

  // ---------------------------------------------------------------- recovering behind other rows

  lemma {:induction false} StopAtBehind(ahead: seq<Row>, row: Row, n: nat, attempt: nat -> Attempt)
    requires n <= |ahead| && StopAt(ahead, n, attempt) == |ahead| && !Stops(row, attempt(|ahead|))
    ensures StopAt(ahead + [row], n, attempt) == |ahead| + 1
    decreases |ahead| - n
  {
    hide Stops;
    if n < |ahead| {
      StopAtBehind(ahead, row, n + 1, attempt);
    }
  }

  lemma RecoveredLogBehind(ahead: seq<Row>, row: Row, attempt: nat -> Attempt)
    requires ahead != []
    ensures RecoveredLog(ahead + [row], 0, |ahead| + 1, attempt)
         == RecoveredLog(ahead, 0, |ahead|, attempt) + [Entry(row, attempt(|ahead|).t, true, false)]
  {
    hide *;
    var a, b := RecoveredLog(ahead + [row], 0, |ahead| + 1, attempt), RecoveredLog(ahead, 0, |ahead|, attempt);
    var last := Entry(row, attempt(|ahead|).t, true, false);
    RecoveredEntryIs(ahead + [row], |ahead|, attempt);
    forall i | 0 <= i < |ahead|
      ensures a[i] == b[i]
    {
      RecoveredAlike(ahead, row, i, attempt);
    }
    SameAppended(a, b, last);
  }

  lemma RecoveredAlike(ahead: seq<Row>, row: Row, i: nat, attempt: nat -> Attempt)
    requires i < |ahead|
    ensures RecoveredEntry(ahead + [row], i, attempt) == RecoveredEntry(ahead, i, attempt)
  {
  }

  lemma SameAppended<T>(a: seq<T>, b: seq<T>, last: T)
    requires |a| == |b| + 1 && a[|b|] == last && forall i :: 0 <= i < |b| ==> a[i] == b[i]
    ensures a == b + [last]
  {
  }

  lemma StillUnknown(before: seq<Row>, after: seq<Row>, pending: seq<Row>, m: nat, key: string)
    requires KeepsRows(before, after, pending, 0, m) && FindRow(before, key).None?
    ensures FindRow(after, key).None?
  {
    hide AmongKeys;
  }

  /** What one more outcome leaves does not depend on who committed it. */
  lemma SameOutcome(log: seq<Entry>, row: Row, t: Times, u: Times, recovered: bool)
    requires t.reviewed == u.reviewed && t.occurred == u.occurred
    ensures DraftsOf(log + [Entry(row, t, recovered, false)]) == DraftsOf(log + [Entry(row, u, false, false)])
    ensures EventsOf(log + [Entry(row, t, recovered, false)]) == EventsOf(log + [Entry(row, u, false, false)])
  {
    AppendLast(log, Entry(row, t, recovered, false));
    AppendLast(log, Entry(row, u, false, false));
    hide Reviewed, Redact, OtherDrafts, Count, ProposalId, DraftsOf, EventsOf;
  }

  /**
   * A recovery that has other rows to commit first loses nothing: drafts and events are those of the same
   * recovery without this row, followed by the uninterrupted call.
   */
  lemma LaterRecoveryReachesUninterrupted(
    doc: Doc, log: seq<Entry>, req: Request, t0: Times, crash: Fault, attempt: nat -> Attempt)
    requires Inv(doc, log) && Storable(req) && Validate(req.input).None?
    requires FindRow(doc.wals, req.input.outcome.key).None? && !crash.Kept?
    requires PreparedRows(doc.wals) != [] && StopAt(PreparedRows(doc.wals), 0, attempt) == |PreparedRows(doc.wals)|
    requires !Stops(NewRow(req, t0), attempt(|PreparedRows(doc.wals)|))
    ensures (var u := attempt(|PreparedRows(doc.wals)|).t.(created := t0.created);
             var recovered := Recover(Apply(doc, req, t0, Kept, crash).1, attempt).1;
             var whole := Apply(Recover(doc, attempt).1, req, u, Kept, Kept);
             whole.0.Done? && recovered.drafts == whole.1.drafts && recovered.events == whole.1.events)
  {
    hide *;
    var row, ahead := NewRow(req, t0), PreparedRows(doc.wals);
    var k := |ahead|;
    var t, u := attempt(k).t, attempt(k).t.(created := t0.created);
    StopsParts(row, attempt(k));
    AfterIntent(doc, log, req, t0, crash);
    var crashed := doc.(wals := doc.wals + [row]);
    NewRowParts(req, t0);
    OnlyThisRowPending(doc.wals, row);
    RecoverStep(crashed, log, attempt);
    RecoversExactlyParts(crashed, log, ahead + [row], 0, attempt);
    StopAtBehind(ahead, row, 0, attempt);
    RecoverStep(doc, log, attempt);
    RecoversExactlyParts(doc, log, ahead, 0, attempt);
    RecoveredLogBehind(ahead, row, attempt);
    var mid, longer := Recover(doc, attempt).1, log + RecoveredLog(ahead, 0, k, attempt);
    assert log + RecoveredLog(ahead + [row], 0, k + 1, attempt) == longer + [Entry(row, t, true, false)];
    StillUnknown(doc.wals, mid.wals, ahead, k, req.input.outcome.key);
    FirstCallProceeds(mid, req);
    ProceedsParts(mid, req, u);
    KeptIs();
    CommitClock(mid, row, t, u, false, false);
    ApplyStep(mid, longer, req, u, Kept, Kept);
    SameOutcome(longer, row, t, u, true);
    InvParts(Recover(crashed, attempt).1, longer + [Entry(row, t, true, false)]);
    InvParts(Apply(mid, req, u, Kept, Kept).1, longer + [Entry(row, u, false, false)]);
  }

  // ---------------------------------------------------------------- what is lost

  lemma LinesAreTheDraftsOwn(input: Input)
    ensures !SetByReview(input, "lines")
  {
    hide History, ReviewEntry;
    var ms := ReviewMembers(input, "");
    assert |"lines"| == 5 && |"ai_review_revision"| == 18;
    assert |ms[0].key| == 14 && |ms[1].key| == 15 && |ms[2].key| == 14 && |ms[3].key| == 14 && |ms[4].key| == 20;
    assert |ms[5].key| == 7;
    FindSkips(ms, 6, "lines");
  }

  lemma AppliedGet(input: Input, at: string, key: string)
    ensures Find(Members(Applied(input, at)), key)
         == if Find(ReviewMembers(input, at), key).Some? then Find(ReviewMembers(input, at), key)
            else if Find(PatchMembers(input), key).Some? then Find(PatchMembers(input), key)
            else Find(Members(input.draft), key)
  {
    hide ReviewMembers, PatchMembers;
    SpreadFind(Spread(Members(input.draft), PatchMembers(input)), ReviewMembers(input, at), key);
    SpreadFind(Members(input.draft), PatchMembers(input), key);
  }

  lemma AcceptedDraftHasLines(d: Json)
    requires DraftError(d).None?
    ensures Find(Members(d), "lines").Some? && Find(Members(d), "lines").value.Arr?
  {
    hide PassingLines;
    assert PassingLines(Get(d, "lines"));
    LinesAreAnArray(Get(d, "lines"));
  }

  lemma LinesAreAnArray(v: Json)
    ensures PassingLines(v) ==> v.Arr?
  {
    hide Total;
  }

  lemma NoLinesNoDraft(d: Json)
    requires !Get(d, "lines").Arr?
    ensures DraftError(d).Some?
  {
    hide PassingLines;
    LinesAreAnArray(Get(d, "lines"));
  }

  /**
   * Whatever the decision, a recovered draft whose lines the patch did not replace is stored with its lines
   * overwritten by the marker, and no longer passes the check that let it be committed.
   */
  lemma RecoveryLosesLines(row: Row, t: Times, revision: nat)
    requires Sound(row) && CommitError(row, t).None? && Find(PatchMembers(row.input), "lines").None?
    ensures (var d := Redact(WrittenDraft(row, t, revision, true));
             Get(d, "lines") == Str(CIRCULAR) && DraftError(d).Some?)
  {
    hide *;
    var input := row.input;
    SoundRedacted(row);
    WrittenIs(row, t, revision, true);
    CommitErrorParts(row, t);
    AcceptedDraftHasLines(Applied(input, t.reviewed));
    AppliedGet(input, t.reviewed, "lines");
    LinesAreTheDraftsOwn(input);
    SetByReviewAnyTime(input, t.reviewed, "lines");
    SetByReviewIs(input, "lines");
    BringsNestedIs(input, "lines");
    NestedMemberIsLost(input, t.reviewed, revision, "lines");
    GetIs(Redact(WrittenDraft(row, t, revision, true)), "lines");
    NoLinesNoDraft(Redact(WrittenDraft(row, t, revision, true)));
  }

  lemma SoundRedacted(row: Row)
    ensures Sound(row) ==> Redact(row.input.draft) == row.input.draft
  {
    hide Redact, Validate, PayloadText;
  }

  lemma CommitErrorParts(row: Row, t: Times)
    ensures CommitError(row, t).None? ==> DraftError(Applied(row.input, t.reviewed)).None?
  {
    hide Validate, DraftError, Applied;
  }

  lemma SetByReviewIs(input: Input, key: string)
    ensures SetByReview(input, key) <==> key == "ai_review_revision" || Find(ReviewMembers(input, ""), key).Some?
  {
    hide ReviewMembers;
  }

  lemma BringsNestedIs(input: Input, key: string)
    ensures BringsNested(input, key)
       <==> (var v := Find(Members(input.draft), key);
             v.Some? && (v.value.Arr? || v.value.Obj?) && !SetByReview(input, key) && Find(PatchMembers(input), key).None?)
  {
    hide SetByReview, PatchMembers;
  }

  lemma GetIs(d: Json, key: string)
    ensures Get(d, key) == if Find(Members(d), key).Some? then Find(Members(d), key).value else Null
  {
  }
}
