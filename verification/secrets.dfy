/** The member names whose values are never persisted: a case-insensitive search for a fixed list of words. */
module Secrets {

  function Lower(c: char): char {
    if 'A' <= c <= 'Z' then (c as nat + 32) as char else c
  }

  predicate Occurs(key: string, at: nat, word: string) {
    at + |word| <= |key| && forall j :: 0 <= j < |word| ==> Lower(key[at + j]) == word[j]
  }

  predicate Mentions(key: string, word: string) {
    exists at :: 0 <= at <= |key| && Occurs(key, at, word)
  }

  predicate SecretKey(key: string) {
    || Mentions(key, "password") || Mentions(key, "passwd") || Mentions(key, "token") || Mentions(key, "secret")
    || Mentions(key, "apikey") || Mentions(key, "api_key") || Mentions(key, "api-key")
    || Mentions(key, "authorization") || Mentions(key, "cookie") || Mentions(key, "ssn")
    || Mentions(key, "bankaccount") || Mentions(key, "bank_account") || Mentions(key, "bank-account")
    || Mentions(key, "routing")
  }

  const MASK := "[REDACTED]"
  const CIRCULAR := "[REDACTED_CIRCULAR_REFERENCE]"

  /** Spelled in lower case, without this letter. */
  predicate Lacks(key: string, c: char) {
    forall i :: 0 <= i < |key| ==> key[i] >= '_' && key[i] != c
  }

  /** No two adjacent letters spell this pair. */
  predicate LacksPair(key: string, a: char, b: char) {
    forall i :: 0 <= i < |key| - 1 ==> Lower(key[i]) != a || Lower(key[i + 1]) != b
  }

  lemma Without(key: string, word: string, j: nat)
    requires j < |word| && Lacks(key, word[j])
    ensures !Mentions(key, word)
  {
    forall at | 0 <= at <= |key|
      ensures !Occurs(key, at, word)
    {
      assert at + |word| <= |key| ==> Lower(key[at + j]) != word[j];
    }
  }

  lemma WithoutPair(key: string, word: string, j: nat)
    requires j + 1 < |word| && LacksPair(key, word[j], word[j + 1])
    ensures !Mentions(key, word)
  {
    forall at | 0 <= at <= |key|
      ensures !Occurs(key, at, word)
    {
      assert at + |word| <= |key| ==> Lower(key[at + j]) != word[j] || Lower(key[at + j + 1]) != word[j + 1];
    }
  }

  /** Out of each word the name lacks a letter or a pair. */
  predicate Harmless(key: string) {
    && (Lacks(key, 'p') || Lacks(key, 'w') || Lacks(key, 's') || Lacks(key, 'a'))
    && (Lacks(key, 't') || Lacks(key, 'k') || Lacks(key, 'n') || LacksPair(key, 'o', 'k'))
    && (Lacks(key, 's') || Lacks(key, 't') || Lacks(key, 'r') || Lacks(key, 'e'))
    && (Lacks(key, 'a') || Lacks(key, 'p') || Lacks(key, 'k') || LacksPair(key, 'a', 'p'))
    && (Lacks(key, 'a') || Lacks(key, 't') || Lacks(key, 'h') || Lacks(key, 'n'))
    && (Lacks(key, 'o') || Lacks(key, 'k') || LacksPair(key, 'o', 'o'))
    && (Lacks(key, 's') || Lacks(key, 'n') || LacksPair(key, 's', 's'))
    && (Lacks(key, 'a') || Lacks(key, 'k') || Lacks(key, 'n') || Lacks(key, 'b'))
    && (Lacks(key, 'r') || Lacks(key, 'o') || Lacks(key, 'g') || Lacks(key, 'i'))
  }

  lemma Letters(key: string, word: string)
    ensures forall j :: 0 <= j < |word| && Lacks(key, word[j]) ==> !Mentions(key, word)
    ensures forall j :: 0 <= j < |word| - 1 && LacksPair(key, word[j], word[j + 1]) ==> !Mentions(key, word)
  {
    hide Lacks, LacksPair, Mentions;
    forall j | 0 <= j < |word| && Lacks(key, word[j])
      ensures !Mentions(key, word)
    {
      Without(key, word, j);
    }
    forall j | 0 <= j < |word| - 1 && LacksPair(key, word[j], word[j + 1])
      ensures !Mentions(key, word)
    {
      WithoutPair(key, word, j);
    }
  }

  lemma NoPassword(key: string)
    requires Harmless(key)
    ensures !Mentions(key, "password") && !Mentions(key, "passwd")
  {
    hide Lacks, LacksPair, Mentions;
    var a, b := "password", "passwd";
    Letters(key, a);
    Letters(key, b);
    assert a[0] == 'p' && a[1] == 'a' && a[2] == 's' && a[4] == 'w';
    assert b[0] == 'p' && b[1] == 'a' && b[2] == 's' && b[4] == 'w';
  }

  lemma NoCredential(key: string)
    requires Harmless(key)
    ensures !Mentions(key, "token") && !Mentions(key, "secret") && !Mentions(key, "authorization")
    ensures !Mentions(key, "cookie") && !Mentions(key, "ssn") && !Mentions(key, "routing")
  {
    hide Lacks, LacksPair, Mentions;
    var a, b, c := "token", "secret", "authorization";
    var d, e, f := "cookie", "ssn", "routing";
    Letters(key, a);
    Letters(key, b);
    Letters(key, c);
    Letters(key, d);
    Letters(key, e);
    Letters(key, f);
    assert a[0] == 't' && a[1] == 'o' && a[2] == 'k' && a[4] == 'n';
    assert b[0] == 's' && b[5] == 't' && b[3] == 'r' && b[1] == 'e';
    assert c[0] == 'a' && c[2] == 't' && c[3] == 'h' && c[12] == 'n';
    assert d[1] == 'o' && d[2] == 'o' && d[3] == 'k';
    assert e[0] == 's' && e[1] == 's' && e[2] == 'n';
    assert f[0] == 'r' && f[1] == 'o' && f[4] == 'i' && f[6] == 'g';
  }

  lemma NoAccount(key: string)
    requires Harmless(key)
    ensures !Mentions(key, "apikey") && !Mentions(key, "api_key") && !Mentions(key, "api-key")
    ensures !Mentions(key, "bankaccount") && !Mentions(key, "bank_account") && !Mentions(key, "bank-account")
  {
    hide Lacks, LacksPair, Mentions;
    var a, b, c := "apikey", "api_key", "api-key";
    var d, e, f := "bankaccount", "bank_account", "bank-account";
    Letters(key, a);
    Letters(key, b);
    Letters(key, c);
    Letters(key, d);
    Letters(key, e);
    Letters(key, f);
    assert a[0] == 'a' && a[1] == 'p' && a[3] == 'k' && b[0] == 'a' && b[1] == 'p' && b[4] == 'k';
    assert c[0] == 'a' && c[1] == 'p' && c[4] == 'k';
    assert d[0] == 'b' && e[0] == 'b' && f[0] == 'b';
    assert d[1] == 'a' && d[2] == 'n' && d[3] == 'k' && e[1] == 'a' && e[2] == 'n' && e[3] == 'k';
    assert f[1] == 'a' && f[2] == 'n' && f[3] == 'k';
  }

  /** A harmless name is not a secret one. */
  lemma HarmlessIsPublic(key: string)
    requires Harmless(key)
    ensures !SecretKey(key)
  {
    hide Harmless, Mentions;
    NoPassword(key);
    NoCredential(key);
    NoAccount(key);
  }

  lemma HistoryIsPublic()
    ensures !SecretKey("history")
  {
    hide SecretKey;
    var key := "history";
    assert Lacks(key, 'a') && Lacks(key, 'k') && Lacks(key, 'e') && Lacks(key, 'n');
    hide Lacks, LacksPair;
    HarmlessIsPublic(key);
  }

  lemma WalsIsPublic()
    ensures !SecretKey("wals")
  {
    hide SecretKey;
    var key := "wals";
    assert Lacks(key, 'p') && Lacks(key, 'k') && Lacks(key, 't') && Lacks(key, 'n') && Lacks(key, 'o') && Lacks(key, 'r');
    hide Lacks, LacksPair;
    HarmlessIsPublic(key);
  }

  lemma DraftsIsPublic()
    ensures !SecretKey("drafts")
  {
    hide SecretKey;
    var key := "drafts";
    assert Lacks(key, 'p') && Lacks(key, 'k') && Lacks(key, 'e') && Lacks(key, 'n') && Lacks(key, 'o');
    hide Lacks, LacksPair;
    HarmlessIsPublic(key);
  }

  lemma EventsIsPublic()
    ensures !SecretKey("events")
  {
    hide SecretKey;
    var key := "events";
    assert Lacks(key, 'p') && Lacks(key, 'k') && Lacks(key, 'r') && Lacks(key, 'a') && Lacks(key, 'o');
    assert LacksPair(key, 's', 's');
    hide Lacks, LacksPair;
    HarmlessIsPublic(key);
  }

  lemma AiProposedIsPublic()
    ensures !SecretKey("ai_proposed")
  {
    hide SecretKey;
    var key := "ai_proposed";
    assert Lacks(key, 'w') && Lacks(key, 't') && Lacks(key, 'k') && Lacks(key, 'n');
    hide Lacks, LacksPair;
    HarmlessIsPublic(key);
  }

  lemma AiProposalIdIsPublic()
    ensures !SecretKey("ai_proposal_id")
  {
    hide SecretKey;
    var key := "ai_proposal_id";
    assert Lacks(key, 'w') && Lacks(key, 't') && Lacks(key, 'k') && Lacks(key, 'n');
    hide Lacks, LacksPair;
    HarmlessIsPublic(key);
  }

  lemma JeIdIsPublic()
    ensures !SecretKey("je_id")
  {
    hide SecretKey;
    var key := "je_id";
    assert Lacks(key, 'w') && Lacks(key, 't') && Lacks(key, 'k') && Lacks(key, 'n') && Lacks(key, 'o');
    hide Lacks, LacksPair;
    HarmlessIsPublic(key);
  }

  lemma JeNumberIsPublic()
    ensures !SecretKey("je_number")
  {
    hide SecretKey;
    var key := "je_number";
    assert Lacks(key, 's') && Lacks(key, 't') && Lacks(key, 'k') && Lacks(key, 'a') && Lacks(key, 'o');
    hide Lacks, LacksPair;
    HarmlessIsPublic(key);
  }

  lemma AiReviewOutcomeIdIsPublic()
    ensures !SecretKey("ai_review_outcome_id")
  {
    hide SecretKey;
    var key := "ai_review_outcome_id";
    assert Lacks(key, 's') && Lacks(key, 'n') && Lacks(key, 'k');
    assert Lacks(key, 'h') && Lacks(key, 'g');
    hide Lacks, LacksPair;
    HarmlessIsPublic(key);
  }

  lemma PostingStatusPairs()
    ensures LacksPair("posting_status", 's', 's')
  {
    var key := "posting_status";
    forall i | 0 <= i < |key| - 1
      ensures Lower(key[i]) != 's' || Lower(key[i + 1]) != 's'
    {
      if key[i] == 's' {
        assert i == 2 || i == 8;
      }
    }
  }

  lemma PostingStatusLetters()
    ensures Lacks("posting_status", 'w') && Lacks("posting_status", 'k') && Lacks("posting_status", 'r')
    ensures Lacks("posting_status", 'h')
  {
  }

  lemma PostingStatusIsPublic()
    ensures !SecretKey("posting_status")
  {
    hide Lacks, LacksPair, SecretKey;
    PostingStatusPairs();
    PostingStatusLetters();
    HarmlessIsPublic("posting_status");
  }

  lemma IdempotencyKeyIsPublic()
    ensures !SecretKey("idempotency_key")
  {
    hide SecretKey;
    var key := "idempotency_key";
    assert Lacks(key, 's') && Lacks(key, 'a') && Lacks(key, 'r');
    assert LacksPair(key, 'o', 'k');
    assert LacksPair(key, 'o', 'o');
    hide Lacks, LacksPair;
    HarmlessIsPublic(key);
  }

  lemma LinesIsPublic()
    ensures !SecretKey("lines")
  {
    hide SecretKey;
    var key := "lines";
    assert Lacks(key, 'p') && Lacks(key, 'a') && Lacks(key, 't') && Lacks(key, 'k') && Lacks(key, 'o');
    assert LacksPair(key, 's', 's');
    hide Lacks, LacksPair;
    HarmlessIsPublic(key);
  }

  lemma DebitIsPublic()
    ensures !SecretKey("debit")
  {
    hide SecretKey;
    var key := "debit";
    assert Lacks(key, 'o') && Lacks(key, 'a') && Lacks(key, 'p') && Lacks(key, 's') && Lacks(key, 'k');
    hide Lacks, LacksPair;
    HarmlessIsPublic(key);
  }

  lemma CreditIsPublic()
    ensures !SecretKey("credit")
  {
    hide SecretKey;
    var key := "credit";
    assert Lacks(key, 'o') && Lacks(key, 'a') && Lacks(key, 'p') && Lacks(key, 's') && Lacks(key, 'k');
    hide Lacks, LacksPair;
    HarmlessIsPublic(key);
  }

  /** The members of a review request are not masked. */
  lemma DraftIsPublic()
    ensures !SecretKey("draft")
  {
    hide SecretKey;
    var key := "draft";
    assert Lacks(key, 's') && Lacks(key, 'o') && Lacks(key, 'i') && Lacks(key, 'k') && Lacks(key, 'n') && Lacks(key, 'p');
    hide Lacks, LacksPair;
    HarmlessIsPublic(key);
  }

  lemma OutcomeIsPublic()
    ensures !SecretKey("outcome")
  {
    hide SecretKey;
    var key := "outcome";
    assert Lacks(key, 's') && Lacks(key, 'a') && Lacks(key, 'k') && Lacks(key, 'n') && Lacks(key, 'g');
    hide Lacks, LacksPair;
    HarmlessIsPublic(key);
  }

  lemma ActorIsPublic()
    ensures !SecretKey("actor")
  {
    hide SecretKey;
    var key := "actor";
    assert Lacks(key, 's') && Lacks(key, 'k') && Lacks(key, 'i') && Lacks(key, 'n');
    hide Lacks, LacksPair;
    HarmlessIsPublic(key);
  }

  lemma DecisionIsPublic()
    ensures !SecretKey("decision")
  {
    hide SecretKey;
    var key := "decision";
    assert Lacks(key, 'a') && Lacks(key, 't') && Lacks(key, 'k') && Lacks(key, 'r');
    assert LacksPair(key, 's', 's');
    hide Lacks, LacksPair;
    HarmlessIsPublic(key);
  }

  lemma ReasonIsPublic()
    ensures !SecretKey("reason")
  {
    hide SecretKey;
    var key := "reason";
    assert Lacks(key, 'p') && Lacks(key, 't') && Lacks(key, 'k') && Lacks(key, 'i') && Lacks(key, 'g');
    assert LacksPair(key, 's', 's');
    hide Lacks, LacksPair;
    HarmlessIsPublic(key);
  }

  lemma PatchIsPublic()
    ensures !SecretKey("patch")
  {
    hide SecretKey;
    var key := "patch";
    assert Lacks(key, 's') && Lacks(key, 'o') && Lacks(key, 'k') && Lacks(key, 'i') && Lacks(key, 'n');
    hide Lacks, LacksPair;
    HarmlessIsPublic(key);
  }

  lemma PayloadProposalIsPublic()
    ensures !SecretKey("proposal_id")
  {
    hide SecretKey;
    var key := "proposal_id";
    assert Lacks(key, 'w') && Lacks(key, 't') && Lacks(key, 'k') && Lacks(key, 'n') && Lacks(key, 'g');
    hide Lacks, LacksPair;
    HarmlessIsPublic(key);
  }

  lemma PayloadDraftIsPublic()
    ensures !SecretKey("draft_id")
  {
    hide SecretKey;
    var key := "draft_id";
    assert Lacks(key, 'p') && Lacks(key, 'k') && Lacks(key, 's') && Lacks(key, 'h') && Lacks(key, 'o');
    hide Lacks, LacksPair;
    HarmlessIsPublic(key);
  }

  lemma PayloadKeyLetters()
    ensures forall i :: 0 <= i < 21 ==> ("draft_idempotency_key"[i] == 'a' <==> i == 2)
    ensures forall i :: 0 <= i < 21 ==> ("draft_idempotency_key"[i] == 'o' <==> i == 11)
    ensures |"draft_idempotency_key"| == 21 && "draft_idempotency_key"[3] == 'f' && "draft_idempotency_key"[12] == 't'
    ensures forall i :: 0 <= i < 21 ==> "draft_idempotency_key"[i] >= '_'
  {
  }

  lemma OneLetterPair(key: string, at: nat, a: char, b: char)
    requires a >= '_' && forall i :: 0 <= i < |key| ==> key[i] >= '_' && (key[i] == a <==> i == at)
    requires at + 1 < |key| ==> key[at + 1] != b
    ensures LacksPair(key, a, b)
  {
  }

  lemma PayloadKeyPairs()
    ensures LacksPair("draft_idempotency_key", 'o', 'k') && LacksPair("draft_idempotency_key", 'o', 'o')
    ensures LacksPair("draft_idempotency_key", 'a', 'p')
  {
    var key := "draft_idempotency_key";
    PayloadKeyLetters();
    OneLetterPair(key, 11, 'o', 'k');
    OneLetterPair(key, 11, 'o', 'o');
    OneLetterPair(key, 2, 'a', 'p');
  }

  lemma PayloadKeyIsPublic()
    ensures !SecretKey("draft_idempotency_key")
  {
    hide SecretKey;
    var key := "draft_idempotency_key";
    PayloadKeyPairs();
    hide LacksPair;
    assert Lacks(key, 'w') && Lacks(key, 's') && Lacks(key, 'h');
    assert Lacks(key, 'b') && Lacks(key, 'g');
    hide Lacks;
    HarmlessIsPublic(key);
  }

  lemma ReviewMetadataIsPublic()
    ensures !SecretKey("review_metadata")
  {
    hide SecretKey;
    var key := "review_metadata";
    assert Lacks(key, 's') && Lacks(key, 'p') && Lacks(key, 'k') && Lacks(key, 'o') && Lacks(key, 'n');
    hide Lacks, LacksPair;
    HarmlessIsPublic(key);
  }

  /** The members through which the workbench shares its source references are not masked. */
  lemma AiEvidenceIsPublic()
    ensures !SecretKey("ai_evidence")
  {
    hide SecretKey;
    var key := "ai_evidence";
    assert Lacks(key, 'p') && Lacks(key, 't') && Lacks(key, 's') && Lacks(key, 'o') && Lacks(key, 'k');
    hide Lacks, LacksPair;
    HarmlessIsPublic(key);
  }

  lemma SourceRefsIsPublic()
    ensures !SecretKey("source_refs")
  {
    hide SecretKey;
    var key := "source_refs";
    assert Lacks(key, 'a') && Lacks(key, 't') && Lacks(key, 'k') && Lacks(key, 'n') && Lacks(key, 'p') && Lacks(key, 'i');
    hide Lacks, LacksPair;
    HarmlessIsPublic(key);
  }

  /** The members that the repository reads back from stored drafts are not masked. */
  lemma DraftColumnsArePublic()
    ensures !SecretKey("ai_proposed") && !SecretKey("ai_proposal_id") && !SecretKey("posting_status")
    ensures !SecretKey("je_id") && !SecretKey("je_number") && !SecretKey("idempotency_key")
    ensures !SecretKey("ai_review_outcome_id")
  {
    hide SecretKey;
    AiProposedIsPublic();
    AiProposalIdIsPublic();
    JeIdIsPublic();
    JeNumberIsPublic();
    AiReviewOutcomeIdIsPublic();
    PostingStatusIsPublic();
    IdempotencyKeyIsPublic();
  }
}
