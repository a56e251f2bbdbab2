/** The Draft write-ahead log: rows and a bounded event log under two storage keys. */
module DraftWal {
  import opened Json

  datatype State = Prepared | Committed

  /** What the log keeps of a Draft; a journal number may be missing. */
  datatype Draft = Draft(proposal: Option<string>, number: Option<string>, posting: string)

  datatype Row = Row(proposal: string, state: State, draft: Draft)

  datatype Kind = Accepted | Intended | Committing | Recovering | RecoveringCommitted

  /** An event; its random identifier is an opaque stamp of the call and the event's place in it. */
  datatype Event = Event(stamp: int, place: nat, kind: Kind, proposal: string)

  /** Whether a save reaches storage, is silently lost, or throws. */
  datatype Save = Kept | Lost | Thrown

  datatype Fault = Incomplete | NotDraft | NotFound | StorageThrew | RowsNotConfirmed | EventsNotConfirmed

  datatype Reply = Reused(row: Row) | Written(row: Row, events: seq<Event>) | Failed(fault: Fault)

  /** One row's recovery. */
  datatype Recovery = Existing(draft: Draft) | Recovered(draft: Draft, event: Event)

  /** Both stored keys, and every event whose save was kept since the log began. */
  datatype World = World(rows: seq<Row>, events: seq<Event>, log: seq<Event>)

  const EMPTY := World([], [], [])

  function KeyOf(proposal: string): string {
    "AI-DRAFT:" + proposal
  }

  lemma KeyInjective(p: string, q: string)
    ensures KeyOf(p) == KeyOf(q) <==> p == q
  {
    assert KeyOf(p)[|"AI-DRAFT:"|..] == p && KeyOf(q)[|"AI-DRAFT:"|..] == q;
  }

  // ---------------------------------------------------------------- saving

  /** The newest five hundred. */
  function Newest(events: seq<Event>): seq<Event> {
    if |events| <= 500 then events else events[|events| - 500..]
  }

  /** Keeping the newest after each append is keeping the newest of everything appended. */
  lemma NewestOfNewest(a: seq<Event>, b: seq<Event>)
    ensures Newest(Newest(a) + b) == Newest(a + b)
  {
    if |a| > 500 {
      assert |Newest(a) + b| <= 500 ==> b == [] && |a| > 500;
      if |Newest(a) + b| <= 500 {
        assert a + b == a && Newest(a) + b == Newest(a);
      } else {
        assert (Newest(a) + b)[|Newest(a) + b| - 500..] == (a + b)[|a + b| - 500..];
      }
    }
  }

  predicate FoundIn(saved: seq<Row>, row: Row) {
    exists j :: 0 <= j < |saved| && saved[j].proposal == row.proposal && saved[j].state == row.state
  }

  /** Every row to be saved is found again, with its state and key. */
  predicate RowsConfirmed(saved: seq<Row>, rows: seq<Row>) {
    forall i :: 0 <= i < |rows| ==> FoundIn(saved, rows[i])
  }

  predicate EventFoundIn(saved: seq<Event>, event: Event) {
    exists j :: 0 <= j < |saved| && saved[j].stamp == event.stamp && saved[j].place == event.place
  }

  predicate EventsConfirmed(saved: seq<Event>, events: seq<Event>) {
    forall i :: 0 <= i < |events| ==> EventFoundIn(saved, events[i])
  }

  function SaveRows(w: World, rows: seq<Row>, save: Save): (World, Option<Fault>) {
    if save.Thrown? then (w, Some(StorageThrew))
    else
      var saved := if save.Kept? then rows else w.rows;
      (w.(rows := saved), if RowsConfirmed(saved, rows) then None else Some(RowsNotConfirmed))
  }

  function AppendEvents(w: World, events: seq<Event>, save: Save): (World, Option<Fault>) {
    if events == [] then (w, None)
    else if save.Thrown? then (w, Some(StorageThrew))
    else
      var next := if save.Kept? then w.(events := Newest(w.events + events), log := w.log + events) else w;
      (next, if EventsConfirmed(next.events, events) then None else Some(EventsNotConfirmed))
  }

  // ---------------------------------------------------------------- the three operations

  function FindKey(rows: seq<Row>, key: string): Option<Row> {
    if rows == [] then None else if KeyOf(rows[0].proposal) == key then Some(rows[0]) else FindKey(rows[1..], key)
  }

  /** Both writes of an operation, the second only after the first is confirmed. */
  function TwoWrites(w: World, rows: seq<Row>, events: seq<Event>, row: Row, first: Save, second: Save): (Reply, World) {
    var (afterRows, fault) := SaveRows(w, rows, first);
    if fault.Some? then (Failed(fault.value), afterRows)
    else
      var (afterEvents, lost) := AppendEvents(afterRows, events, second);
      (if lost.Some? then Failed(lost.value) else Written(row, events), afterEvents)
  }

  function PreparedEvents(proposal: string, stamp: int): seq<Event> {
    [Event(stamp, 0, Accepted, proposal), Event(stamp, 1, Intended, proposal)]
  }

  /** A proposal to be logged; finding and evidence are only looked at for being there. */
  datatype Args = Args(proposal: string, evidenced: bool, draft: Option<Draft>)

  function Prepare(w: World, args: Args, stamp: int, first: Save, second: Save): (Reply, World) {
    var existing := FindKey(w.rows, KeyOf(args.proposal));
    if existing.Some? then (Reused(existing.value), w)
    else if args.proposal == "" || !args.evidenced || args.draft.None? then (Failed(Incomplete), w)
    else if args.draft.value.posting != "DRAFT" then (Failed(NotDraft), w)
    else
      var row := Row(args.proposal, Prepared, args.draft.value);
      TwoWrites(w, w.rows + [row], PreparedEvents(args.proposal, stamp), row, first, second)
  }

  function CommitRows(rows: seq<Row>, proposal: string): (r: seq<Row>)
    ensures |r| == |rows|
    ensures forall i :: 0 <= i < |rows| ==>
              r[i] == if rows[i].proposal == proposal then rows[i].(state := Committed) else rows[i]
  {
    if rows == [] then []
    else [if rows[0].proposal == proposal then rows[0].(state := Committed) else rows[0]] + CommitRows(rows[1..], proposal)
  }

  predicate HasRow(rows: seq<Row>, proposal: string) {
    exists i :: 0 <= i < |rows| && rows[i].proposal == proposal
  }

  predicate HasRowIn(rows: seq<Row>, proposal: string, state: State) {
    exists i :: 0 <= i < |rows| && rows[i].proposal == proposal && rows[i].state == state
  }

  function LastRow(rows: seq<Row>, proposal: string): Row
    requires HasRow(rows, proposal)
  {
    if rows[|rows| - 1].proposal == proposal then rows[|rows| - 1] else LastRow(rows[..|rows| - 1], proposal)
  }

  function CommitEventsFor(rows: seq<Row>, proposal: string, stamp: int): seq<Event> {
    if HasRowIn(rows, proposal, Prepared) then [Event(stamp, 0, Committing, proposal)] else []
  }

  function CommitDraft(w: World, proposal: string, posting: string, stamp: int, first: Save, second: Save): (Reply, World) {
    if proposal == "" || posting != "DRAFT" then (Failed(NotDraft), w)
    else if !HasRow(w.rows, proposal) then (Failed(NotFound), w)
    else
      TwoWrites(w, CommitRows(w.rows, proposal), CommitEventsFor(w.rows, proposal, stamp),
                LastRow(CommitRows(w.rows, proposal), proposal), first, second)
  }

  /** A Draft stands for a row by its proposal or by its number; two missing numbers are equal. */
  predicate StandsFor(d: Draft, row: Row) {
    d.proposal == Some(row.proposal) || d.number == row.draft.number
  }

  function FindDraft(drafts: seq<Draft>, row: Row): Option<Draft> {
    if drafts == [] then None else if StandsFor(drafts[0], row) then Some(drafts[0]) else FindDraft(drafts[1..], row)
  }

  /** recoverAIWAL; rows always hold a Draft and one of the two states. */
  function RecoverRow(row: Row, drafts: seq<Draft>, stamp: int, place: nat): Recovery {
    match FindDraft(drafts, row)
    case Some(d) => Existing(d)
    case None =>
      Recovered(Draft(Some(row.proposal), row.draft.number, "DRAFT"),
                Event(stamp, place, if row.state.Committed? then RecoveringCommitted else Recovering, row.proposal))
  }

  function RecoverRows(rows: seq<Row>, drafts: seq<Draft>, stamp: int): (r: seq<Recovery>)
    ensures |r| == |rows| && forall i :: 0 <= i < |rows| ==> r[i] == RecoverRow(rows[i], drafts, stamp, i)
  {
    if rows == [] then []
    else RecoverRows(rows[..|rows| - 1], drafts, stamp) + [RecoverRow(rows[|rows| - 1], drafts, stamp, |rows| - 1)]
  }

  function RecoveryEvents(rs: seq<Recovery>): seq<Event> {
    if rs == [] then []
    else RecoveryEvents(rs[..|rs| - 1]) + (if rs[|rs| - 1].Recovered? then [rs[|rs| - 1].event] else [])
  }

  function RecoveredDrafts(rs: seq<Recovery>): seq<Draft> {
    if rs == [] then []
    else RecoveredDrafts(rs[..|rs| - 1]) + (if rs[|rs| - 1].Recovered? then [rs[|rs| - 1].draft] else [])
  }

  function Recover(w: World, drafts: seq<Draft>, stamp: int, save: Save): (Option<Fault>, World) {
    var (next, fault) := AppendEvents(w, RecoveryEvents(RecoverRows(w.rows, drafts, stamp)), save);
    (fault, next)
  }

  // ---------------------------------------------------------------- the invariant

  predicate DistinctRows(rows: seq<Row>) {
    forall i, j :: 0 <= i < j < |rows| ==> rows[i].proposal != rows[j].proposal
  }

  function Commits(log: seq<Event>, proposal: string): nat {
    if log == [] then 0
    else Commits(log[..|log| - 1], proposal)
         + if log[|log| - 1].kind.Committing? && log[|log| - 1].proposal == proposal then 1 else 0
  }

  /**
   * One row per proposal, the stored events are the newest of all events, and a proposal has at most one commit
   * event, which it can only have once its row is COMMITTED.
   */
  ghost predicate Inv(w: World) {
    && DistinctRows(w.rows)
    && (forall i :: 0 <= i < |w.rows| ==> w.rows[i].proposal != "")
    && w.events == Newest(w.log)
    && forall p :: Commits(w.log, p) <= if HasRowIn(w.rows, p, Committed) then 1 else 0
  }

  /** Rows stay where they are and change only from PREPARED to COMMITTED; events are only added. */
  ghost predicate Evolves(a: World, b: World) {
    && |a.rows| <= |b.rows| && a.log <= b.log
    && (forall i :: 0 <= i < |a.rows| ==> b.rows[i] == a.rows[i] || b.rows[i] == a.rows[i].(state := Committed))
    && forall p :: HasRowIn(a.rows, p, Committed) ==> Commits(b.log, p) == Commits(a.log, p)
  }

  lemma {:induction false} CommitsConcat(a: seq<Event>, b: seq<Event>, p: string)
    ensures Commits(a + b, p) == Commits(a, p) + Commits(b, p)
  {
    if b == [] {
      assert a + b == a;
    } else {
      assert (a + b)[..|a + b| - 1] == a + b[..|b| - 1];
      CommitsConcat(a, b[..|b| - 1], p);
    }
  }

  lemma {:induction false} NoCommits(events: seq<Event>, p: string)
    requires forall i :: 0 <= i < |events| ==> !events[i].kind.Committing? || events[i].proposal != p
    ensures Commits(events, p) == 0
  {
    if events != [] {
      NoCommits(events[..|events| - 1], p);
    }
  }

  // ---------------------------------------------------------------- what the read-backs detect

  lemma ConfirmsItself(rows: seq<Row>)
    ensures RowsConfirmed(rows, rows)
  {
  }

  /** A lost save of a new row is detected. */
  lemma LostRowDetected(rows: seq<Row>, row: Row)
    requires !HasRow(rows, row.proposal)
    ensures !RowsConfirmed(rows, rows + [row])
  {
    assert (rows + [row])[|rows|] == row;
    assert !FoundIn(rows, row);
  }

  /** A lost save of a commit is detected exactly when it changes a row. */
  lemma LostCommitDetectedIff(rows: seq<Row>, p: string)
    requires DistinctRows(rows)
    ensures RowsConfirmed(rows, CommitRows(rows, p)) <==> !HasRowIn(rows, p, Prepared)
  {
    var next := CommitRows(rows, p);
    if HasRowIn(rows, p, Prepared) {
      var i :| 0 <= i < |rows| && rows[i].proposal == p && rows[i].state == Prepared;
      assert next[i].proposal == p && next[i].state == Committed;
      assert !FoundIn(rows, next[i]);
    } else {
      ConfirmsItself(rows);
      assert next == rows;
    }
  }

  /** What a pair of writes can leave behind. */
  lemma TwoWritesShape(w: World, rows: seq<Row>, events: seq<Event>, row: Row, first: Save, second: Save)
    ensures (var (reply, next) := TwoWrites(w, rows, events, row, first, second);
             && next.rows == (if first.Kept? then rows else w.rows)
             && (if !first.Thrown? && RowsConfirmed(next.rows, rows) && second.Kept?
                 then next.events == (if events == [] then w.events else Newest(w.events + events))
                      && next.log == w.log + events
                 else next.events == w.events && next.log == w.log)
             && (reply.Written? ==> !first.Thrown? && RowsConfirmed(next.rows, rows))
             && (reply.Written? && events != [] ==> EventsConfirmed(next.events, events)))
  {
    hide RowsConfirmed, EventsConfirmed, Newest;
    ConfirmsItself(rows);
    assert w.log + [] == w.log;
  }

  // ---------------------------------------------------------------- every operation keeps the invariant

  lemma CommittedGrows(a: seq<Row>, b: seq<Row>, p: string)
    requires |a| <= |b| && forall i :: 0 <= i < |a| ==> b[i] == a[i] || b[i] == a[i].(state := Committed)
    ensures HasRowIn(a, p, Committed) ==> HasRowIn(b, p, Committed)
  {
    if HasRowIn(a, p, Committed) {
      var i :| 0 <= i < |a| && a[i].proposal == p && a[i].state == Committed;
      assert b[i].proposal == p && b[i].state == Committed;
    }
  }

  /** New rows, and events of which none is a commit for a row already COMMITTED. */
  lemma Moves(w: World, rows: seq<Row>, events: seq<Event>, next: World)
    requires Inv(w) && DistinctRows(rows) && forall i :: 0 <= i < |rows| ==> rows[i].proposal != ""
    requires |w.rows| <= |rows|
    requires forall i :: 0 <= i < |w.rows| ==> rows[i] == w.rows[i] || rows[i] == w.rows[i].(state := Committed)
    requires forall p :: Commits(events, p) <= if HasRowIn(rows, p, Committed) && !HasRowIn(w.rows, p, Committed) then 1 else 0
    requires next == World(rows, Newest(w.events + events), w.log + events)
    ensures Inv(next) && Evolves(w, next)
  {
    hide HasRowIn, Newest;
    NewestOfNewest(w.log, events);
    forall p
      ensures Commits(next.log, p) == Commits(w.log, p) + Commits(events, p)
      ensures HasRowIn(w.rows, p, Committed) ==> HasRowIn(rows, p, Committed)
    {
      CommitsConcat(w.log, events, p);
      CommittedGrows(w.rows, rows, p);
    }
  }

  lemma NewestNothing(w: World)
    requires w.events == Newest(w.log)
    ensures Newest(w.events + []) == w.events && w.log + [] == w.log
  {
    assert w.events + [] == w.events;
  }

  lemma {:induction false} FindKeyIs(rows: seq<Row>, p: string)
    ensures FindKey(rows, KeyOf(p)).None? <==> !HasRow(rows, p)
    ensures FindKey(rows, KeyOf(p)).Some? ==>
              FindKey(rows, KeyOf(p)).value in rows && FindKey(rows, KeyOf(p)).value.proposal == p
  {
    hide KeyOf;
    if rows != [] {
      KeyInjective(rows[0].proposal, p);
      FindKeyIs(rows[1..], p);
      if HasRow(rows[1..], p) {
        var i :| 0 <= i < |rows[1..]| && rows[1..][i].proposal == p;
        assert rows[i + 1].proposal == p;
      }
      if HasRow(rows, p) {
        var i :| 0 <= i < |rows| && rows[i].proposal == p;
        assert i > 0 ==> rows[1..][i - 1].proposal == p;
      }
    }
  }

  /** The proposal is new and complete. */
  predicate Admitted(w: World, args: Args) {
    && FindKey(w.rows, KeyOf(args.proposal)).None? && args.proposal != "" && args.evidenced && args.draft.Some?
    && args.draft.value.posting == "DRAFT"
  }

  lemma PrepareIs(w: World, args: Args, stamp: int, first: Save, second: Save)
    ensures (var (reply, next) := Prepare(w, args, stamp, first, second);
             if Admitted(w, args) then
               var row := Row(args.proposal, Prepared, args.draft.value);
               (reply, next) == TwoWrites(w, w.rows + [row], PreparedEvents(args.proposal, stamp), row, first, second)
             else next == w && !reply.Written?)
  {
    hide TwoWrites, FindKey, KeyOf;
  }

  lemma PreparedEventsCommitNothing(p: string, stamp: int, q: string)
    ensures Commits(PreparedEvents(p, stamp), q) == 0 == Commits([], q)
  {
    NoCommits(PreparedEvents(p, stamp), q);
  }

  lemma AddsRow(w: World, row: Row)
    requires Inv(w) && row.proposal != "" && !HasRow(w.rows, row.proposal)
    ensures (var rows := w.rows + [row];
             && DistinctRows(rows) && (forall i :: 0 <= i < |rows| ==> rows[i].proposal != "")
             && forall i :: 0 <= i < |w.rows| ==> rows[i] == w.rows[i])
  {
    hide HasRowIn, Newest, Commits;
  }

  /** Both writes of a new row. */
  lemma NewRowKeepsInv(w: World, row: Row, stamp: int, first: Save, second: Save)
    requires Inv(w) && row.proposal != "" && !HasRow(w.rows, row.proposal)
    ensures (var (reply, next) := TwoWrites(w, w.rows + [row], PreparedEvents(row.proposal, stamp), row, first, second);
             && Inv(next) && Evolves(w, next)
             && (reply.Written? ==> first.Kept? && next.rows == w.rows + [reply.row])
             && (!first.Kept? ==> next == w && !reply.Written?))
  {
    hide *;
    var rows, events := w.rows + [row], PreparedEvents(row.proposal, stamp);
    TwoWritesShape(w, rows, events, row, first, second);
    TwoWritesRow(w, rows, events, row, first, second);
    LostRowDetected(w.rows, row);
    InvIs(w);
    NewestNothing(w);
    StaysPut(w);
    AddsRow(w, row);
    forall p
      ensures Commits(events, p) == 0 == Commits([], p)
    {
      PreparedEventsCommitNothing(row.proposal, stamp, p);
    }
    if first.Kept? {
      ConfirmsItself(rows);
      var next := TwoWrites(w, rows, events, row, first, second).1;
      PreparedEventsSome(row.proposal, stamp);
      Moves(w, rows, if second.Kept? then events else [], next);
    }
  }

  lemma PreparedEventsSome(p: string, stamp: int)
    ensures PreparedEvents(p, stamp) != []
  {
  }

  lemma InvIs(w: World)
    requires Inv(w)
    ensures DistinctRows(w.rows) && w.events == Newest(w.log)
    ensures forall i :: 0 <= i < |w.rows| ==> w.rows[i].proposal != ""
    ensures forall p :: Commits(w.log, p) <= if HasRowIn(w.rows, p, Committed) then 1 else 0
  {
    hide DistinctRows, Newest, Commits, HasRowIn;
  }

  /** Preparing keeps the invariant; a lost first save changes nothing and is reported. */
  lemma PrepareKeepsInv(w: World, args: Args, stamp: int, first: Save, second: Save)
    requires Inv(w)
    ensures (var (reply, next) := Prepare(w, args, stamp, first, second);
             && Inv(next) && Evolves(w, next)
             && (reply.Written? ==> first.Kept? && next.rows == w.rows + [reply.row])
             && (!first.Kept? ==> next == w && !reply.Written?))
  {
    hide TwoWrites, Inv, Evolves, Prepare, FindKey, KeyOf, HasRow, PreparedEvents;
    PrepareIs(w, args, stamp, first, second);
    StaysPut(w);
    if Admitted(w, args) {
      FindKeyIs(w.rows, args.proposal);
      NewRowKeepsInv(w, Row(args.proposal, Prepared, args.draft.value), stamp, first, second);
    }
  }

  /** A proposal already in the log is answered with its row, and nothing else is. */
  lemma PrepareReuses(w: World, args: Args, stamp: int, first: Save, second: Save)
    ensures (var (reply, next) := Prepare(w, args, stamp, first, second);
             && (reply.Reused? <==> HasRow(w.rows, args.proposal))
             && (reply.Reused? ==> next == w && reply.row in w.rows && reply.row.proposal == args.proposal))
  {
    hide TwoWrites, FindKey, KeyOf, HasRow, PreparedEvents;
    FindKeyIs(w.rows, args.proposal);
    if args.draft.Some? {
      TwoWritesRow(w, w.rows + [Row(args.proposal, Prepared, args.draft.value)], PreparedEvents(args.proposal, stamp),
                   Row(args.proposal, Prepared, args.draft.value), first, second);
    }
  }

  lemma StaysPut(w: World)
    requires Inv(w)
    ensures Evolves(w, w)
  {
  }

  lemma TwoWritesRow(w: World, rows: seq<Row>, events: seq<Event>, row: Row, first: Save, second: Save)
    ensures (var reply := TwoWrites(w, rows, events, row, first, second).0;
             !reply.Reused? && (reply.Written? ==> reply.row == row && reply.events == events))
  {
    hide RowsConfirmed, EventsConfirmed, Newest;
  }

  lemma CommitEventCounts(rows: seq<Row>, p: string, stamp: int, q: string)
    requires DistinctRows(rows)
    ensures Commits(CommitEventsFor(rows, p, stamp), q)
         <= if HasRowIn(CommitRows(rows, p), q, Committed) && !HasRowIn(rows, q, Committed) then 1 else 0
    ensures HasRowIn(rows, p, Prepared) ==> Commits(CommitEventsFor(rows, p, stamp), p) == 1
  {
    var events := CommitEventsFor(rows, p, stamp);
    if HasRowIn(rows, p, Prepared) {
      assert events[..0] == [];
      assert Commits(events, q) == if q == p then 1 else 0;
      var i :| 0 <= i < |rows| && rows[i].proposal == p && rows[i].state == Prepared;
      var next := CommitRows(rows, p);
      assert next[i].proposal == p && next[i].state == Committed;
      forall j | 0 <= j < |rows| && rows[j].proposal == p
        ensures rows[j].state == Prepared
      {
        assert j == i;
      }
    }
  }

  lemma CommitDraftIs(w: World, proposal: string, posting: string, stamp: int, first: Save, second: Save)
    ensures (var (reply, next) := CommitDraft(w, proposal, posting, stamp, first, second);
             if proposal != "" && posting == "DRAFT" && HasRow(w.rows, proposal) then
               HasRow(CommitRows(w.rows, proposal), proposal)
               && (reply, next)
                  == TwoWrites(w, CommitRows(w.rows, proposal), CommitEventsFor(w.rows, proposal, stamp),
                               LastRow(CommitRows(w.rows, proposal), proposal), first, second)
             else next == w && !reply.Written?)
  {
    hide TwoWrites;
    if HasRow(w.rows, proposal) {
      RowAfterCommit(w.rows, proposal, stamp);
    }
  }

  lemma ChangesRow(w: World, p: string)
    requires Inv(w)
    ensures (var rows := CommitRows(w.rows, p);
             && DistinctRows(rows) && (forall i :: 0 <= i < |rows| ==> rows[i].proposal != "")
             && |rows| == |w.rows|
             && forall i :: 0 <= i < |w.rows| ==> rows[i] == w.rows[i] || rows[i] == w.rows[i].(state := Committed))
  {
    hide HasRowIn, Newest, Commits;
  }

  lemma CommitRowKeepsInv(w: World, p: string, row: Row, stamp: int, first: Save, second: Save)
    requires Inv(w) && HasRow(w.rows, p)
    ensures (var (reply, next) := TwoWrites(w, CommitRows(w.rows, p), CommitEventsFor(w.rows, p, stamp), row, first, second);
             && Inv(next) && Evolves(w, next)
             && (reply.Written? ==> HasRowIn(next.rows, p, Committed))
             && (!first.Kept? ==> next == w && (reply.Written? ==> HasRowIn(w.rows, p, Committed))))
  {
    hide *;
    var rows, events := CommitRows(w.rows, p), CommitEventsFor(w.rows, p, stamp);
    RowAfterCommit(w.rows, p, stamp);
    TwoWritesShape(w, rows, events, row, first, second);
    TwoWritesRow(w, rows, events, row, first, second);
    InvIs(w);
    LostCommitDetectedIff(w.rows, p);
    NewestNothing(w);
    StaysPut(w);
    ChangesRow(w, p);
    forall q
      ensures Commits(events, q) <= if HasRowIn(rows, q, Committed) && !HasRowIn(w.rows, q, Committed) then 1 else 0
      ensures Commits([], q) == 0
    {
      CommitEventCounts(w.rows, p, stamp, q);
      NoCommits([], q);
    }
    ConfirmsItself(rows);
    if first.Kept? {
      var next := TwoWrites(w, rows, events, row, first, second).1;
      Moves(w, rows, if second.Kept? then events else [], next);
    }
  }

  /** Committing keeps the invariant, and a lost first save goes unreported only when there was nothing to save. */
  lemma CommitKeepsInv(w: World, proposal: string, posting: string, stamp: int, first: Save, second: Save)
    requires Inv(w)
    ensures (var (reply, next) := CommitDraft(w, proposal, posting, stamp, first, second);
             && Inv(next) && Evolves(w, next)
             && (reply.Written? ==> HasRowIn(next.rows, proposal, Committed))
             && (!first.Kept? ==> next == w && (reply.Written? ==> HasRowIn(w.rows, proposal, Committed))))
  {
    hide *;
    CommitDraftIs(w, proposal, posting, stamp, first, second);
    StaysPut(w);
    if proposal != "" && posting == "DRAFT" && HasRow(w.rows, proposal) {
      CommitRowKeepsInv(w, proposal, LastRow(CommitRows(w.rows, proposal), proposal), stamp, first, second);
    }
  }

  lemma RowAfterCommit(rows: seq<Row>, p: string, stamp: int)
    requires HasRow(rows, p)
    ensures HasRow(CommitRows(rows, p), p) && HasRowIn(CommitRows(rows, p), p, Committed)
    ensures HasRowIn(rows, p, Prepared) || HasRowIn(rows, p, Committed)
    ensures CommitEventsFor(rows, p, stamp) == [] <==> !HasRowIn(rows, p, Prepared)
  {
    var i :| 0 <= i < |rows| && rows[i].proposal == p;
    var next := CommitRows(rows, p);
    assert next[i].proposal == p && next[i].state == Committed;
    assert rows[i].state == Prepared || rows[i].state == Committed;
  }
}
