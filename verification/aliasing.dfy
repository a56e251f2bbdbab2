/** Values with node identity: reading a member, and which nodes matter to a redaction. */
module Aliasing {
  import opened Json
  import opened Secrets
  import opened Redaction

  lemma {:induction false} FindErased(ms: seq<Member<Linked>>, key: string)
    ensures Find(EraseMembers(ms), key) == if Find(ms, key).Some? then Some(Erase(Find(ms, key).value)) else None
  {
    hide Erase;
    if ms != [] {
      FindErased(ms[1..], key);
      assert EraseMembers(ms)[1..] == EraseMembers(ms[1..]);
    }
  }

  lemma {:induction false} ProperMember(ms: seq<Member<Linked>>, key: string)
    requires ProperMembers(ms)
    ensures Find(ms, key).Some? ==> Proper(Find(ms, key).value)
  {
    if ms != [] {
      ProperMember(ms[1..], key);
    }
  }

  lemma {:induction false} MemberNodesOf(ms: seq<Member<Linked>>, key: string)
    requires !SecretKey(key)
    ensures Find(ms, key).Some? ==> Nodes(Find(ms, key).value) <= MemberNodes(ms)
  {
    hide SecretKey, Nodes;
    if ms != [] {
      MemberNodesOf(ms[1..], key);
    }
  }

  /** The nodes met once the first member is redacted. */
  function AfterHead(ms: seq<Member<Linked>>, seen: set<Id>): set<Id>
    requires ms != []
  {
    if SecretKey(ms[0].key) then seen else RedactLinked(ms[0].value, seen).1
  }

  lemma LinkedMembersHead(ms: seq<Member<Linked>>, seen: set<Id>)
    requires ms != []
    ensures (var v := if SecretKey(ms[0].key) then Str(MASK) else RedactLinked(ms[0].value, seen).0;
             RedactLinkedMembers(ms, seen).0
             == [Member(ms[0].key, v)] + RedactLinkedMembers(ms[1..], AfterHead(ms, seen)).0)
  {
    hide SecretKey, RedactLinked;
  }

  lemma {:induction false} VisitsOwnNodes(l: Linked, seen: set<Id>)
    ensures RedactLinked(l, seen).1 <= seen + Nodes(l)
    decreases l, 0
  {
    match l
    case Items(id, xs) => VisitsOwnItemNodes(xs, seen + {id});
    case Fields(id, ms) => VisitsOwnMemberNodes(ms, seen + {id});
    case _ =>
  }

  lemma {:induction false} VisitsOwnItemNodes(xs: seq<Linked>, seen: set<Id>)
    ensures RedactLinkedItems(xs, seen).1 <= seen + ItemNodes(xs)
    decreases xs
  {
    if xs != [] {
      VisitsOwnNodes(xs[0], seen);
      VisitsOwnItemNodes(xs[1..], RedactLinked(xs[0], seen).1);
    }
  }

  lemma {:induction false} VisitsOwnMemberNodes(ms: seq<Member<Linked>>, seen: set<Id>)
    ensures RedactLinkedMembers(ms, seen).1 <= seen + MemberNodes(ms)
    decreases ms
  {
    hide SecretKey;
    if ms != [] {
      var after := if SecretKey(ms[0].key) then seen else RedactLinked(ms[0].value, seen).1;
      VisitsOwnNodes(ms[0].value, seen);
      VisitsOwnMemberNodes(ms[1..], after);
    }
  }

  /** Nodes that a value does not hold do not change its redaction. */
  lemma StrangersIgnored(l: Linked, seen: set<Id>, more: set<Id>)
    requires Proper(l) && Nodes(l) !! more - seen
    ensures RedactLinked(l, seen + more).0 == RedactLinked(l, seen).0
  {
    VisitsOwnNodes(l, seen);
    MoreSeen(l, seen, more - seen);
    assert seen + (more - seen) == seen + more;
  }
}
