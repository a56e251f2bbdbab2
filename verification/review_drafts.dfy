/** Which drafts the store holds: one per proposal, from its newest committed outcome. */
module ReviewDrafts {
  import opened Json
  import opened Redaction
  import opened ReviewOutcome
  import opened ReviewLog
  import opened ReviewInvariant
  import opened ReviewSteps

  // ---------------------------------------------------------------- the columns of a written draft

  lemma {:induction false} MetFind(ms: seq<Member<Json>>, key: string)
    requires key != "history"
    ensures Find(MetMembers(ms), key)
         == match Find(ms, key)
            case None => None
            case Some(v) => Some(Met(v))
  {
    if ms != [] {
      MetFind(ms[1..], key);
    }
  }

  lemma MetProposal(input: Input)
    requires Scalar(ProposalId(input.draft))
    ensures Find(Members(MetDraft(input).draft), "ai_proposal_id") == Find(Members(input.draft), "ai_proposal_id")
  {
    assert |"ai_proposal_id"| == 14 && |"history"| == 7;
    hide ProposalId, MetMembers, Find;
    MetFind(Members(input.draft), "ai_proposal_id");
  }

  lemma MetKeepsProposal(input: Input, at: string, revision: nat)
    requires Validate(input).None? && Scalar(ProposalId(input.draft))
    ensures ProposalId(Reviewed(MetDraft(input), at, revision)) == ProposalId(input.draft)
  {
    MetProposal(input);
    ReviewedGet(MetDraft(input), at, revision, "ai_proposal_id");
    ReviewOmitsProposal(MetDraft(input), at);
    PatchOmitsProposal(input);
    assert PatchMembers(MetDraft(input)) == PatchMembers(input);
  }

  /** The columns by which a stored draft is found again. */
  lemma WrittenColumns(row: Row, t: Times, revision: nat, shared: bool)
    requires Sound(row) && Validate(row.input).None?
    ensures (var d := Redact(WrittenDraft(row, t, revision, shared));
             ProposalId(d) == ProposalId(row.input.draft) && DraftOutcome(d) == Str(row.key)
             && Get(d, "posting_status") == Str("DRAFT"))
  {
    var input := if shared then MetDraft(row.input) else row.input;
    var d := Reviewed(input, t.reviewed, revision);
    hide *;
    WrittenIs(row, t, revision, shared);
    SoundParts(row);
    if shared {
      MetKeepsProposal(row.input, t.reviewed, revision);
    } else {
      AppliedKeepsProposal(row.input, t.reviewed, revision);
    }
    AppliedStaysDraft(input, t.reviewed, revision);
    AppliedNamesOutcome(input, t.reviewed, revision);
    StoredProposalId(d);
    StoredOutcomeId(d);
    StoredPostingStatus(d);
    ScalarsStay(d);
  }

  lemma WrittenIs(row: Row, t: Times, revision: nat, shared: bool)
    ensures WrittenDraft(row, t, revision, shared)
         == Reviewed(if shared then MetDraft(row.input) else row.input, t.reviewed, revision)
    ensures (if shared then MetDraft(row.input) else row.input).outcome == row.input.outcome
  {
    hide Reviewed;
  }

  lemma SoundParts(row: Row)
    ensures Sound(row) && Validate(row.input).None? ==>
              Scalar(ProposalId(row.input.draft)) && row.key == row.input.outcome.key
  {
    hide Validate, RedactInput, ProposalId;
  }

  lemma ScalarsStay(d: Json)
    ensures Scalar(ProposalId(d)) ==> Redact(ProposalId(d)) == ProposalId(d)
    ensures Get(d, "ai_review_outcome_id").Str? ==> Redact(Get(d, "ai_review_outcome_id")) == Get(d, "ai_review_outcome_id")
    ensures Get(d, "posting_status").Str? ==> Redact(Get(d, "posting_status")) == Get(d, "posting_status")
    ensures DraftOutcome(Redact(d)) == Get(Redact(d), "ai_review_outcome_id")
  {
    hide ProposalId, Get;
  }

  lemma DraftAtColumns(log: seq<Entry>, n: nat)
    requires LogSound(log) && n < |log|
    ensures ProposalId(DraftAt(log, n)) == EntryProposal(log[n]) && Scalar(EntryProposal(log[n]))
    ensures DraftOutcome(DraftAt(log, n)) == Str(log[n].row.key)
    ensures Get(DraftAt(log, n), "posting_status") == Str("DRAFT")
  {
    hide WrittenDraft, Redact, Sound, CommitError, ProposalId, Get, DraftOutcome, Count;
    assert EntrySound(log[n]);
    CommitErrorSplits(log[n].row, log[n].t);
    SoundParts(log[n].row);
    WrittenColumns(log[n].row, log[n].t, RevisionAt(log, n), log[n].shared);
  }

  // ---------------------------------------------------------------- newest outcomes

  /** No later outcome is for the same proposal. */
  predicate Newest(log: seq<Entry>, n: nat) {
    n < |log| && RevisionAt(log, n) == Count(log, EntryProposal(log[n]))
  }

  lemma LogSoundPrefix(log: seq<Entry>)
    requires LogSound(log) && log != []
    ensures LogSound(log[..|log| - 1])
  {
    hide EntrySound;
  }

  lemma PrefixAt(log: seq<Entry>, n: nat)
    requires n < |log| - 1
    ensures log[..|log| - 1][n] == log[n]
    ensures RevisionAt(log[..|log| - 1], n) == RevisionAt(log, n)
    ensures DraftAt(log[..|log| - 1], n) == DraftAt(log, n)
  {
    hide Redact, WrittenDraft, ProposalId;
    assert log[..|log| - 1][..n] == log[..n];
  }

  lemma CountSplit(log: seq<Entry>, proposal: Json)
    requires log != []
    ensures Count(log, proposal)
         == Count(log[..|log| - 1], proposal) + if StrictEqual(EntryProposal(log[|log| - 1]), proposal) then 1 else 0
  {
    hide EntryProposal;
  }

  lemma NewestSplit(log: seq<Entry>, n: nat)
    requires n < |log|
    ensures n == |log| - 1 ==> (Newest(log, n) <==> Scalar(EntryProposal(log[n])))
    ensures n < |log| - 1 ==>
              (Newest(log, n)
               <==> Newest(log[..|log| - 1], n) && !StrictEqual(EntryProposal(log[|log| - 1]), EntryProposal(log[n])))
  {
    hide EntryProposal, Count;
    CountSplit(log, EntryProposal(log[n]));
    if n < |log| - 1 {
      PrefixAt(log, n);
      CountGrows(log[..|log| - 1], n, EntryProposal(log[n]));
    }
  }

  lemma DraftsOfSplit(log: seq<Entry>)
    requires log != []
    ensures DraftsOf(log) == OtherDrafts(DraftsOf(log[..|log| - 1]), EntryProposal(log[|log| - 1])) + [DraftAt(log, |log| - 1)]
  {
    hide Redact, WrittenDraft, ProposalId, OtherDrafts;
  }

  /** Every stored draft comes from the newest outcome of some proposal. */
  lemma {:induction false} DraftComesFromNewest(log: seq<Entry>, d: Json) returns (n: nat)
    requires LogSound(log) && d in DraftsOf(log)
    ensures Newest(log, n) && d == DraftAt(log, n)
    decreases |log|
  {
    hide *;
    DraftsOfNothing(log);
    var last := |log| - 1;
    DraftsOfSplit(log);
    DraftAtColumns(log, last);
    NewestSplit(log, last);
    if d == DraftAt(log, last) {
      n := last;
      TextIsScalar(EntryProposal(log[last]));
    } else {
      OtherDraftsSubset(DraftsOf(log[..last]), EntryProposal(log[last]));
      LogSoundPrefix(log);
      n := DraftComesFromNewest(log[..last], d);
      NewestIsIndex(log[..last], n);
      PrefixAt(log, n);
      NewestSplit(log, n);
      DraftAtColumns(log, n);
      StrictEqualSymmetric(EntryProposal(log[last]), EntryProposal(log[n]));
    }
  }

  /** The newest outcome of every proposal is stored. */
  lemma {:induction false} NewestIsStored(log: seq<Entry>, n: nat)
    requires LogSound(log) && Newest(log, n)
    ensures n < |log| && DraftAt(log, n) in DraftsOf(log)
    decreases |log|
  {
    hide *;
    NewestIsIndex(log, n);
    var last := |log| - 1;
    DraftsOfSplit(log);
    if n < last {
      NewestSplit(log, n);
      LogSoundPrefix(log);
      NewestIsStored(log[..last], n);
      PrefixAt(log, n);
      DraftAtColumns(log, n);
      OtherDraftsSubset(DraftsOf(log[..last]), EntryProposal(log[last]));
      StrictEqualSymmetric(EntryProposal(log[last]), EntryProposal(log[n]));
    }
  }

  lemma TextIsScalar(v: Json)
    requires Scalar(v)
    ensures Scalar(v)
  {
  }

  lemma DraftsOfNothing(log: seq<Entry>)
    ensures log == [] ==> DraftsOf(log) == []
  {
  }

  lemma NewestIsIndex(log: seq<Entry>, n: nat)
    ensures Newest(log, n) ==> n < |log|
  {
  }

  lemma StrictEqualSymmetric(a: Json, b: Json)
    ensures StrictEqual(a, b) <==> StrictEqual(b, a)
  {
  }

  predicate DistinctProposals(ds: seq<Json>) {
    forall i, j :: 0 <= i < j < |ds| ==> ProposalId(ds[i]) != ProposalId(ds[j])
  }

  lemma {:induction false} OtherDraftsDistinct(ds: seq<Json>, proposal: Json)
    requires DistinctProposals(ds)
    ensures DistinctProposals(OtherDrafts(ds, proposal))
  {
    hide ProposalId;
    if ds != [] {
      OtherDraftsDistinct(ds[1..], proposal);
      OtherDraftsSubset(ds[1..], proposal);
      var rest := OtherDrafts(ds[1..], proposal);
      forall j | 0 <= j < |rest|
        ensures ProposalId(rest[j]) != ProposalId(ds[0])
      {
        assert rest[j] in rest && rest[j] in ds[1..];
      }
    }
  }

  /** No proposal has two stored drafts. */
  lemma {:induction false} OneDraftPerProposal(log: seq<Entry>)
    requires LogSound(log)
    ensures DistinctProposals(DraftsOf(log))
    decreases |log|
  {
    hide *;
    DraftsOfNothing(log);
    EmptyDistinct();
    if log != [] {
      var last := |log| - 1;
      LogSoundPrefix(log);
      OneDraftPerProposal(log[..last]);
      DraftsOfSplit(log);
      DraftAtColumns(log, last);
      OtherDraftsDistinct(DraftsOf(log[..last]), EntryProposal(log[last]));
      OtherDraftsSubset(DraftsOf(log[..last]), EntryProposal(log[last]));
      AppendDistinct(OtherDrafts(DraftsOf(log[..last]), EntryProposal(log[last])), DraftAt(log, last));
    }
  }

  lemma EmptyDistinct()
    ensures DistinctProposals([])
  {
  }

  lemma AppendDistinct(ds: seq<Json>, d: Json)
    requires DistinctProposals(ds) && Scalar(ProposalId(d))
    requires forall x :: x in ds ==> !StrictEqual(ProposalId(x), ProposalId(d))
    ensures DistinctProposals(ds + [d])
  {
    hide ProposalId;
    forall i | 0 <= i < |ds|
      ensures ProposalId(ds[i]) != ProposalId(d)
    {
      assert ds[i] in ds;
    }
  }
}
