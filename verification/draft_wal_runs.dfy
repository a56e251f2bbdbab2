/** Recovery of the Draft write-ahead log, the repository object, and every run of its callers. */
module DraftWalRuns {
  import opened Json
  import opened DraftWal

  // ---------------------------------------------------------------- recovery

  lemma {:induction false} RecoveryEventIs(rs: seq<Recovery>, e: Event)
    ensures e in RecoveryEvents(rs) <==> exists i :: 0 <= i < |rs| && rs[i].Recovered? && rs[i].event == e
  {
    if rs != [] {
      var front := rs[..|rs| - 1];
      RecoveryEventIs(front, e);
      if e in RecoveryEvents(front) {
        var i :| 0 <= i < |front| && front[i].Recovered? && front[i].event == e;
        assert rs[i].event == e;
      }
      if i :| 0 <= i < |rs| && rs[i].Recovered? && rs[i].event == e {
        assert i < |front| ==> front[i] == rs[i];
      }
    }
  }

  lemma {:induction false} RecoveredDraftIs(rs: seq<Recovery>, d: Draft)
    ensures d in RecoveredDrafts(rs) <==> exists i :: 0 <= i < |rs| && rs[i].Recovered? && rs[i].draft == d
  {
    if rs != [] {
      var front := rs[..|rs| - 1];
      RecoveredDraftIs(front, d);
      if d in RecoveredDrafts(front) {
        var i :| 0 <= i < |front| && front[i].Recovered? && front[i].draft == d;
        assert rs[i].draft == d;
      }
      if i :| 0 <= i < |rs| && rs[i].Recovered? && rs[i].draft == d {
        assert i < |front| ==> front[i] == rs[i];
      }
    }
  }

  lemma {:induction false} FindDraftIff(drafts: seq<Draft>, row: Row)
    ensures FindDraft(drafts, row).Some? <==> exists d :: d in drafts && StandsFor(d, row)
    ensures FindDraft(drafts, row).Some? ==> StandsFor(FindDraft(drafts, row).value, row)
  {
    if drafts != [] {
      FindDraftIff(drafts[1..], row);
      assert drafts == [drafts[0]] + drafts[1..];
    }
  }

  /** Recovery writes no commit event and touches no row. */
  lemma RecoverKeepsInv(w: World, drafts: seq<Draft>, stamp: int, save: Save)
    requires Inv(w)
    ensures (var (fault, next) := Recover(w, drafts, stamp, save);
             Inv(next) && Evolves(w, next) && next.rows == w.rows && (!save.Kept? ==> next == w))
  {
    hide Newest, EventsConfirmed, HasRowIn;
    var events := RecoveryEvents(RecoverRows(w.rows, drafts, stamp));
    NewestNothing(w);
    StaysPut(w);
    forall p
      ensures Commits(events, p) == 0
    {
      forall i | 0 <= i < |events|
        ensures !events[i].kind.Committing?
      {
        RecoveryEventIs(RecoverRows(w.rows, drafts, stamp), events[i]);
      }
      NoCommits(events, p);
    }
    if save.Kept? && events != [] {
      Moves(w, w.rows, events, Recover(w, drafts, stamp, save).1);
    }
  }

  /** The Drafts once those that a recovery made have been added. */
  function AfterRecovery(rows: seq<Row>, drafts: seq<Draft>, stamp: int): seq<Draft> {
    drafts + RecoveredDrafts(RecoverRows(rows, drafts, stamp))
  }

  lemma RowStoodFor(rows: seq<Row>, drafts: seq<Draft>, stamp: int, i: nat)
    requires i < |rows|
    ensures FindDraft(AfterRecovery(rows, drafts, stamp), rows[i]).Some?
  {
    var rs := RecoverRows(rows, drafts, stamp);
    FindDraftIff(drafts, rows[i]);
    FindDraftIff(AfterRecovery(rows, drafts, stamp), rows[i]);
    if rs[i].Recovered? {
      RecoveredDraftIs(rs, rs[i].draft);
      assert StandsFor(rs[i].draft, rows[i]);
    } else {
      var d :| d in drafts && StandsFor(d, rows[i]);
      assert d in AfterRecovery(rows, drafts, stamp);
    }
  }

  /** A second recovery that is given the Drafts of the first makes none and logs nothing. */
  lemma SecondRecoveryDoesNothing(w: World, drafts: seq<Draft>, stamp: int, save: Save, again: int, saveAgain: Save)
    ensures (var next := Recover(w, drafts, stamp, save).1;
             var known := AfterRecovery(w.rows, drafts, stamp);
             && (forall i :: 0 <= i < |w.rows| ==> RecoverRows(next.rows, known, again)[i].Existing?)
             && RecoveredDrafts(RecoverRows(next.rows, known, again)) == []
             && Recover(next, known, again, saveAgain) == (None, next))
  {
    var next := Recover(w, drafts, stamp, save).1;
    var known := AfterRecovery(w.rows, drafts, stamp);
    var rs := RecoverRows(next.rows, known, again);
    assert next.rows == w.rows;
    forall i | 0 <= i < |rs|
      ensures rs[i].Existing?
    {
      RowStoodFor(w.rows, drafts, stamp, i);
    }
    NothingRecovered(rs);
  }

  lemma {:induction false} NothingRecovered(rs: seq<Recovery>)
    requires forall i :: 0 <= i < |rs| ==> rs[i].Existing?
    ensures RecoveryEvents(rs) == [] && RecoveredDrafts(rs) == []
  {
    if rs != [] {
      NothingRecovered(rs[..|rs| - 1]);
    }
  }

  predicate HasOwnDraft(drafts: seq<Draft>, row: Row) {
    exists i :: 0 <= i < |drafts| && drafts[i].proposal == Some(row.proposal)
  }

  /** Another Draft carries the row's number, or both have none. */
  predicate NumberTaken(drafts: seq<Draft>, row: Row) {
    exists i :: 0 <= i < |drafts| && drafts[i].number == row.draft.number
  }

  lemma OwnDraftIff(rows: seq<Row>, drafts: seq<Draft>, stamp: int, i: nat)
    requires DistinctRows(rows) && i < |rows|
    ensures HasOwnDraft(AfterRecovery(rows, drafts, stamp), rows[i])
       <==> HasOwnDraft(drafts, rows[i]) || !NumberTaken(drafts, rows[i])
  {
    var rs := RecoverRows(rows, drafts, stamp);
    var known := AfterRecovery(rows, drafts, stamp);
    FindDraftIff(drafts, rows[i]);
    if HasOwnDraft(drafts, rows[i]) {
      var k :| 0 <= k < |drafts| && drafts[k].proposal == Some(rows[i].proposal);
      assert known[k] == drafts[k];
    } else if !NumberTaken(drafts, rows[i]) {
      assert rs[i].Recovered?;
      RecoveredDraftIs(rs, rs[i].draft);
      assert rs[i].draft in known;
    } else {
      var k :| 0 <= k < |drafts| && drafts[k].number == rows[i].draft.number;
      assert drafts[k] in drafts && StandsFor(drafts[k], rows[i]);
      assert rs[i].Existing?;
      forall n | 0 <= n < |known|
        ensures known[n].proposal != Some(rows[i].proposal)
      {
        if n < |drafts| {
          assert drafts[n] == known[n];
        } else {
          RecoveredDraftIs(rs, known[n]);
          assert known[n] == RecoveredDrafts(rs)[n - |drafts|];
        }
      }
    }
  }

  /**
   * After a recovery every logged proposal has a Draft of its own exactly when, before it, each proposal without
   * one also had a journal number that no Draft carried; a missing number counts as carried by any other.
   */
  lemma EveryProposalHasDraftIff(rows: seq<Row>, drafts: seq<Draft>, stamp: int)
    requires DistinctRows(rows)
    ensures (forall i :: 0 <= i < |rows| ==> HasOwnDraft(AfterRecovery(rows, drafts, stamp), rows[i]))
       <==> (forall i :: 0 <= i < |rows| ==> HasOwnDraft(drafts, rows[i]) || !NumberTaken(drafts, rows[i]))
  {
    hide HasOwnDraft, NumberTaken;
    forall i | 0 <= i < |rows|
      ensures HasOwnDraft(AfterRecovery(rows, drafts, stamp), rows[i])
         <==> HasOwnDraft(drafts, rows[i]) || !NumberTaken(drafts, rows[i])
    {
      OwnDraftIff(rows, drafts, stamp, i);
    }
  }

  // ---------------------------------------------------------------- what the event read-back detects

  /** No stored event has the identifier of a new one, and the new ones differ. */
  predicate FreshEvents(stored: seq<Event>, events: seq<Event>) {
    && (forall i, j :: 0 <= i < |stored| && 0 <= j < |events| ==>
          stored[i].stamp != events[j].stamp || stored[i].place != events[j].place)
    && (forall i, j :: 0 <= i < j < |events| ==> events[i].stamp != events[j].stamp || events[i].place != events[j].place)
  }

  /** An append is confirmed exactly when its save was kept and all of it fits: more than five hundred never do. */
  lemma AppendConfirmedIff(w: World, events: seq<Event>, save: Save)
    requires events != [] && FreshEvents(w.events, events)
    ensures AppendEvents(w, events, save).1.None? <==> save.Kept? && |events| <= 500
  {
    var all := w.events + events;
    var saved := AppendEvents(w, events, save).0.events;
    if save.Kept? {
      if |events| <= 500 {
        forall i | 0 <= i < |events|
          ensures EventFoundIn(saved, events[i])
        {
          var j := |saved| - |events| + i;
          assert saved[j] == events[i];
        }
      } else {
        forall j | 0 <= j < |saved|
          ensures saved[j].stamp != events[0].stamp || saved[j].place != events[0].place
        {
          assert saved[j] == events[|events| - 500 + j];
        }
        assert !EventFoundIn(saved, events[0]);
      }
    } else if !save.Thrown? {
      forall j | 0 <= j < |saved|
        ensures saved[j].stamp != events[0].stamp || saved[j].place != events[0].place
      {
      }
      assert !EventFoundIn(saved, events[0]);
    }
  }

  /** The events of one recovery carry its stamp and the places of their rows, in order. */
  lemma {:induction false} RecoveryEventsShape(rs: seq<Recovery>, stamp: int)
    requires forall i :: 0 <= i < |rs| && rs[i].Recovered? ==> rs[i].event.stamp == stamp && rs[i].event.place == i
    ensures |RecoveryEvents(rs)| == |RecoveredDrafts(rs)|
    ensures forall i :: 0 <= i < |RecoveryEvents(rs)| ==>
              RecoveryEvents(rs)[i].stamp == stamp && RecoveryEvents(rs)[i].place < |rs|
    ensures forall i, j :: 0 <= i < j < |RecoveryEvents(rs)| ==> RecoveryEvents(rs)[i].place < RecoveryEvents(rs)[j].place
  {
    if rs != [] {
      RecoveryEventsShape(rs[..|rs| - 1], stamp);
    }
  }

  /**
   * A recovery is confirmed exactly when it made no Draft, or when its events were saved and are at most five
   * hundred. The events of a larger one are all saved, and the call throws nevertheless.
   */
  lemma RecoverConfirmedIff(w: World, drafts: seq<Draft>, stamp: int, save: Save)
    requires forall i :: 0 <= i < |w.events| ==> w.events[i].stamp != stamp
    ensures (var (fault, next) := Recover(w, drafts, stamp, save);
             var rs := RecoverRows(w.rows, drafts, stamp);
             && (fault.None? <==> RecoveredDrafts(rs) == [] || (save.Kept? && |RecoveredDrafts(rs)| <= 500))
             && next.log == w.log + if save.Kept? then RecoveryEvents(rs) else [])
  {
    var rs := RecoverRows(w.rows, drafts, stamp);
    RecoveryEventsShape(rs, stamp);
    assert w.log + [] == w.log;
    if RecoveryEvents(rs) != [] {
      AppendConfirmedIff(w, RecoveryEvents(rs), save);
    }
  }

  // ---------------------------------------------------------------- runs

  datatype Step =
    | DoPrepare(args: Args, stamp: int, first: Save, second: Save)
    | DoRecover(drafts: seq<Draft>, stamp: int, save: Save)
    | DoCommit(proposal: string, posting: string, stamp: int, first: Save, second: Save)

  function After(w: World, step: Step): World {
    match step
    case DoPrepare(args, stamp, first, second) => Prepare(w, args, stamp, first, second).1
    case DoRecover(drafts, stamp, save) => Recover(w, drafts, stamp, save).1
    case DoCommit(proposal, posting, stamp, first, second) => CommitDraft(w, proposal, posting, stamp, first, second).1
  }

  function Run(w: World, steps: seq<Step>): World
    decreases |steps|
  {
    if steps == [] then w else Run(After(w, steps[0]), steps[1..])
  }

  lemma StepKeepsInv(w: World, step: Step)
    requires Inv(w)
    ensures Inv(After(w, step)) && Evolves(w, After(w, step))
  {
    hide Inv, Evolves, Prepare, Recover, CommitDraft;
    match step
    case DoPrepare(args, stamp, first, second) => PrepareKeepsInv(w, args, stamp, first, second);
    case DoRecover(drafts, stamp, save) => RecoverKeepsInv(w, drafts, stamp, save);
    case DoCommit(proposal, posting, stamp, first, second) =>
      CommitKeepsInv(w, proposal, posting, stamp, first, second);
  }

  lemma EvolvesOn(a: World, b: World, c: World)
    requires Evolves(a, b) && Evolves(b, c)
    ensures Evolves(a, c)
  {
    hide HasRowIn, Commits;
    forall p
      ensures HasRowIn(a.rows, p, Committed) ==> HasRowIn(b.rows, p, Committed)
    {
      CommittedGrows(a.rows, b.rows, p);
    }
  }

  /**
   * Over every run of calls and of lost or throwing saves: one row per proposal, rows only ever move from PREPARED
   * to COMMITTED, the stored events are the newest five hundred of all, each proposal has at most one commit
   * event, and a row that is COMMITTED gets no commit event any more.
   */
  lemma {:induction false} RunKeepsInv(w: World, steps: seq<Step>)
    requires Inv(w)
    ensures Inv(Run(w, steps)) && Evolves(w, Run(w, steps))
    decreases |steps|
  {
    hide Inv, Evolves, After;
    StaysPut(w);
    if steps != [] {
      StepKeepsInv(w, steps[0]);
      RunKeepsInv(After(w, steps[0]), steps[1..]);
      EvolvesOn(w, After(w, steps[0]), Run(w, steps));
    }
  }

  lemma EmptyHoldsInv()
    ensures Inv(EMPTY)
  {
  }

  lemma CommitWritesItsEvent(w: World, proposal: string, stamp: int, second: Save)
    requires Inv(w) && proposal != "" && HasRowIn(w.rows, proposal, Prepared)
    ensures (var next := CommitDraft(w, proposal, "DRAFT", stamp, Kept, second).1;
             && HasRowIn(next.rows, proposal, Committed)
             && Commits(next.log, proposal) == if second.Kept? then 1 else 0)
  {
    hide *;
    InvIs(w);
    OneRowEach(w.rows, proposal);
    CommitDraftIs(w, proposal, "DRAFT", stamp, Kept, second);
    RowAfterCommit(w.rows, proposal, stamp);
    var rows, events := CommitRows(w.rows, proposal), CommitEventsFor(w.rows, proposal, stamp);
    TwoWritesShape(w, rows, events, LastRow(rows, proposal), Kept, second);
    ConfirmsItself(rows);
    CommitEventCounts(w.rows, proposal, stamp, proposal);
    CommitsConcat(w.log, events, proposal);
  }

  lemma OneRowEach(rows: seq<Row>, p: string)
    requires DistinctRows(rows) && HasRowIn(rows, p, Prepared)
    ensures HasRow(rows, p) && !HasRowIn(rows, p, Committed)
  {
    var i :| 0 <= i < |rows| && rows[i].proposal == p && rows[i].state == Prepared;
  }

  /**
   * A commit whose row is saved has its commit event in every future exactly when the event's own save was
   * kept: once that save is lost, no later run ever writes the event.
   */
  lemma CommitEventForeverIff(w: World, proposal: string, stamp: int, second: Save, later: seq<Step>)
    requires Inv(w) && proposal != "" && HasRowIn(w.rows, proposal, Prepared)
    ensures (var next := CommitDraft(w, proposal, "DRAFT", stamp, Kept, second).1;
             Commits(Run(next, later).log, proposal) == if second.Kept? then 1 else 0)
  {
    hide *;
    var next := CommitDraft(w, proposal, "DRAFT", stamp, Kept, second).1;
    CommitKeepsInv(w, proposal, "DRAFT", stamp, Kept, second);
    CommitWritesItsEvent(w, proposal, stamp, second);
    RunKeepsInv(next, later);
    EvolvesIs(next, Run(next, later), proposal);
  }

  lemma EvolvesIs(a: World, b: World, p: string)
    requires Evolves(a, b) && HasRowIn(a.rows, p, Committed)
    ensures Commits(b.log, p) == Commits(a.log, p)
  {
    hide HasRowIn, Commits;
  }

  // ---------------------------------------------------------------- the repository

  /** The rewrite of the rows: the proposal's row becomes COMMITTED, and whether that changed anything. */
  method MarkCommitted(rows: seq<Row>, proposal: string)
    returns (next: seq<Row>, committed: Option<Row>, newly: bool)
    ensures next == CommitRows(rows, proposal)
    ensures committed.Some? <==> HasRow(rows, proposal)
    ensures committed.Some? ==> HasRow(next, proposal) && committed.value == LastRow(next, proposal)
    ensures newly <==> HasRowIn(rows, proposal, Prepared)
  {
    hide *;
    next, committed, newly := [], None, false;
    NoRowYet(proposal);
    var i := 0;
    while i < |rows|
      invariant 0 <= i <= |rows|
      invariant next == CommitRows(rows[..i], proposal)
      invariant newly <==> HasRowIn(rows[..i], proposal, Prepared)
      invariant committed.Some? <==> HasRow(next, proposal)
      invariant committed.Some? ==> committed.value == LastRow(next, proposal)
    {
      var row := rows[i];
      HasRowNext(rows, i, proposal);
      CommitRowsNext(rows, i, proposal);
      CommitOne(row, proposal);
      LastRowNext(next, OneCommitted(row, proposal), proposal);
      if row.proposal != proposal {
        next := next + [row];
      } else if row.state.Committed? {
        committed := Some(row);
        next := next + [row];
      } else {
        committed := Some(row.(state := Committed));
        newly := true;
        next := next + [row.(state := Committed)];
      }
      i := i + 1;
    }
    assert rows[..i] == rows;
    CommittedIffHeld(rows, proposal);
  }

  function OneCommitted(row: Row, proposal: string): Row {
    if row.proposal == proposal then row.(state := Committed) else row
  }

  lemma CommitOne(row: Row, proposal: string)
    ensures OneCommitted(row, proposal) == if row.proposal == proposal then row.(state := Committed) else row
    ensures row.state.Committed? ==> row.(state := Committed) == row && row.state != Prepared
    ensures !row.state.Committed? ==> row.state == Prepared
  {
  }

  lemma CommitRowsNext(rows: seq<Row>, i: nat, proposal: string)
    requires i < |rows|
    ensures CommitRows(rows[..i + 1], proposal) == CommitRows(rows[..i], proposal) + [OneCommitted(rows[i], proposal)]
  {
    hide CommitRows;
  }

  lemma NoRowYet(p: string)
    ensures !HasRow([], p) && !HasRowIn([], p, Prepared) && CommitRows([], p) == []
  {
  }

  class DraftRepository {
    var rows: seq<Row>
    var events: seq<Event>
    /** Every event whose save was kept. */
    ghost var log: seq<Event>

    ghost function State(): World
      reads this
    {
      World(rows, events, log)
    }

    constructor ()
      ensures State() == EMPTY && Inv(State())
    {
      rows, events, log := [], [], [];
      new;
      EmptyHoldsInv();
    }

    /**
     * Save, then look for every row again. A kept save is always confirmed; a lost one goes unnoticed exactly when
     * every row to be saved was already stored with its state.
     */
    method WriteRows(next: seq<Row>, save: Save) returns (fault: Option<Fault>)
      modifies this
      ensures rows == (if save.Kept? then next else old(rows)) && events == old(events) && log == old(log)
      ensures save.Kept? ==> fault.None?
      ensures save.Lost? ==> (fault.None? <==> RowsConfirmed(old(rows), next))
      ensures save.Thrown? ==> fault == Some(StorageThrew)
      ensures (State(), fault) == SaveRows(old(State()), next, save)
    {
      ConfirmsItself(next);
      if save.Thrown? {
        return Some(StorageThrew);
      }
      if save.Kept? {
        rows := next;
      }
      fault := if RowsConfirmed(rows, next) then None else Some(RowsNotConfirmed);
    }

    /**
     * Append, keep the newest five hundred, then look for every new event again. New events are confirmed exactly
     * when their save was kept and all of them fit.
     */
    method WriteEvents(more: seq<Event>, save: Save) returns (fault: Option<Fault>)
      modifies this
      ensures rows == old(rows) && log == old(log) + if save.Kept? then more else []
      ensures old(events) == Newest(old(log)) ==> events == Newest(log)
      ensures more == [] ==> fault.None? && events == old(events)
      ensures more != [] && FreshEvents(old(events), more) ==> (fault.None? <==> save.Kept? && |more| <= 500)
      ensures (State(), fault) == AppendEvents(old(State()), more, save)
    {
      NewestOfNewest(log, more);
      assert log + [] == log;
      if more != [] && FreshEvents(events, more) {
        AppendConfirmedIff(State(), more, save);
      }
      if more == [] {
        return None;
      }
      if save.Thrown? {
        return Some(StorageThrew);
      }
      if save.Kept? {
        events := Newest(events + more);
        log := log + more;
      }
      fault := if EventsConfirmed(events, more) then None else Some(EventsNotConfirmed);
    }

    method PrepareDraft(args: Args, stamp: int, first: Save, second: Save) returns (reply: Reply)
      requires Inv(State())
      modifies this
      ensures Inv(State()) && Evolves(old(State()), State())
      ensures (reply, State()) == Prepare(old(State()), args, stamp, first, second)
    {
      PrepareKeepsInv(State(), args, stamp, first, second);
      hide Inv, Evolves, SaveRows, AppendEvents, PreparedEvents, FindKey;
      var existing := FindKey(rows, KeyOf(args.proposal));
      if existing.Some? {
        return Reused(existing.value);
      }
      if args.proposal == "" || !args.evidenced || args.draft.None? {
        return Failed(Incomplete);
      }
      if args.draft.value.posting != "DRAFT" {
        return Failed(NotDraft);
      }
      var row := Row(args.proposal, Prepared, args.draft.value);
      var fault := WriteRows(rows + [row], first);
      if fault.Some? {
        return Failed(fault.value);
      }
      var written := PreparedEvents(args.proposal, stamp);
      fault := WriteEvents(written, second);
      if fault.Some? {
        return Failed(fault.value);
      }
      reply := Written(row, written);
    }

    method RecoverDrafts(drafts: seq<Draft>, stamp: int, save: Save) returns (results: seq<Recovery>, fault: Option<Fault>)
      requires Inv(State())
      modifies this
      ensures Inv(State()) && Evolves(old(State()), State())
      ensures results == RecoverRows(old(rows), drafts, stamp)
      ensures (fault, State()) == Recover(old(State()), drafts, stamp, save)
    {
      RecoverKeepsInv(State(), drafts, stamp, save);
      RecoverIs(State(), drafts, stamp, save);
      ghost var next := Recover(State(), drafts, stamp, save).1;
      assert Inv(next) && Evolves(State(), next);
      hide Inv, Evolves, AppendEvents, Recover, RecoverRows, RecoverRow, RecoveryEvents, Newest, FreshEvents;
      NothingYet(drafts, stamp);
      results := [];
      var written: seq<Event> := [];
      var i := 0;
      while i < |rows|
        invariant 0 <= i <= |rows|
        invariant rows == old(rows) && events == old(events) && log == old(log)
        invariant results == RecoverRows(rows[..i], drafts, stamp)
        invariant written == RecoveryEvents(results)
      {
        var result := RecoverRow(rows[i], drafts, stamp, i);
        RecoverNext(rows, i, drafts, stamp);
        results := results + [result];
        if result.Recovered? {
          written := written + [result.event];
        }
        i := i + 1;
      }
      assert rows[..i] == rows;
      fault := WriteEvents(written, save);
      assert State() == next;
    }

    method CommitProposal(proposal: string, posting: string, stamp: int, first: Save, second: Save) returns (reply: Reply)
      requires Inv(State())
      modifies this
      ensures Inv(State()) && Evolves(old(State()), State())
      ensures (reply, State()) == CommitDraft(old(State()), proposal, posting, stamp, first, second)
    {
      CommitKeepsInv(State(), proposal, posting, stamp, first, second);
      hide Inv, Evolves, SaveRows, AppendEvents, HasRow, HasRowIn, LastRow, CommitRows;
      if proposal == "" || posting != "DRAFT" {
        return Failed(NotDraft);
      }
      var next, committed, newly := MarkCommitted(rows, proposal);
      if committed.None? {
        return Failed(NotFound);
      }
      var written := if newly then [Event(stamp, 0, Committing, proposal)] else [];
      assert written == CommitEventsFor(rows, proposal, stamp);
      var fault := WriteRows(next, first);
      if fault.Some? {
        return Failed(fault.value);
      }
      fault := WriteEvents(written, second);
      if fault.Some? {
        return Failed(fault.value);
      }
      reply := Written(committed.value, written);
    }
  }

  lemma RecoverIs(w: World, drafts: seq<Draft>, stamp: int, save: Save)
    ensures (var (next, fault) := AppendEvents(w, RecoveryEvents(RecoverRows(w.rows, drafts, stamp)), save);
             Recover(w, drafts, stamp, save) == (fault, next))
  {
    hide AppendEvents, RecoveryEvents, RecoverRows;
  }

  lemma NothingYet(drafts: seq<Draft>, stamp: int)
    ensures RecoverRows([], drafts, stamp) == [] && RecoveryEvents([]) == []
  {
  }

  lemma RecoverNext(rows: seq<Row>, i: nat, drafts: seq<Draft>, stamp: int)
    requires i < |rows|
    ensures (var before, result := RecoverRows(rows[..i], drafts, stamp), RecoverRow(rows[i], drafts, stamp, i);
             && RecoverRows(rows[..i + 1], drafts, stamp) == before + [result]
             && RecoveryEvents(before + [result]) == RecoveryEvents(before) + if result.Recovered? then [result.event] else [])
  {
    hide RecoverRow;
    assert rows[..i + 1][..i] == rows[..i];
    var before, result := RecoverRows(rows[..i], drafts, stamp), RecoverRow(rows[i], drafts, stamp, i);
    assert (before + [result])[..|before|] == before;
  }

  lemma HasRowNext(rows: seq<Row>, i: nat, p: string)
    requires i < |rows|
    ensures HasRowIn(rows[..i + 1], p, Prepared)
       <==> HasRowIn(rows[..i], p, Prepared) || (rows[i].proposal == p && rows[i].state == Prepared)
  {
    var a, b := rows[..i], rows[..i + 1];
    assert b[i] == rows[i];
    if HasRowIn(a, p, Prepared) {
      var k :| 0 <= k < |a| && a[k].proposal == p && a[k].state == Prepared;
      assert b[k] == a[k];
    }
    if HasRowIn(b, p, Prepared) {
      var k :| 0 <= k < |b| && b[k].proposal == p && b[k].state == Prepared;
      assert k < i ==> a[k] == b[k];
    }
  }

  lemma LastRowNext(rows: seq<Row>, row: Row, p: string)
    ensures HasRow(rows + [row], p) <==> HasRow(rows, p) || row.proposal == p
    ensures row.proposal == p ==> LastRow(rows + [row], p) == row
    ensures row.proposal != p && HasRow(rows, p) ==> LastRow(rows + [row], p) == LastRow(rows, p)
  {
    var next := rows + [row];
    assert next[|rows|] == row && next[..|next| - 1] == rows;
    if HasRow(rows, p) {
      var k :| 0 <= k < |rows| && rows[k].proposal == p;
      assert next[k] == rows[k];
    }
  }

  lemma CommittedIffHeld(rows: seq<Row>, p: string)
    ensures HasRow(CommitRows(rows, p), p) <==> HasRow(rows, p)
  {
    hide CommitRows;
    var next := CommitRows(rows, p);
    if HasRow(rows, p) {
      var k :| 0 <= k < |rows| && rows[k].proposal == p;
      assert next[k].proposal == p;
    }
    if HasRow(next, p) {
      var k :| 0 <= k < |next| && next[k].proposal == p;
      assert rows[k].proposal == p;
    }
  }

  /** A logged proposal without a journal number gets no Draft while any other Draft has none either. */
  lemma MissingNumberExample(stamp: int)
    ensures (var rows := [Row("A", Prepared, Draft(None, None, "DRAFT"))];
             var drafts := [Draft(Some("B"), None, "DRAFT")];
             !HasOwnDraft(AfterRecovery(rows, drafts, stamp), rows[0]))
  {
    var rows := [Row("A", Prepared, Draft(None, None, "DRAFT"))];
    var drafts := [Draft(Some("B"), None, "DRAFT")];
    assert "A"[0] != "B"[0];
    assert NumberTaken(drafts, rows[0]) by {
      assert drafts[0].number == rows[0].draft.number;
    }
    OwnDraftIff(rows, drafts, stamp, 0);
  }

  /** That many different proposals, none with a Draft. */
  function PreparedMany(n: nat): (r: seq<Row>)
    ensures |r| == n && DistinctRows(r)
    ensures forall i :: 0 <= i < n ==>
              |r[i].proposal| == i + 1 && r[i].state.Prepared? && r[i].draft == Draft(None, None, "DRAFT")
  {
    if n == 0 then [] else PreparedMany(n - 1) + [Row(seq(n, _ => 'P'), Prepared, Draft(None, None, "DRAFT"))]
  }

  lemma {:induction false} AllRecovered(rs: seq<Recovery>)
    requires forall i :: 0 <= i < |rs| ==> rs[i].Recovered?
    ensures |RecoveredDrafts(rs)| == |rs|
  {
    if rs != [] {
      AllRecovered(rs[..|rs| - 1]);
    }
  }

  /** A recovery of five hundred and one proposals saves all its events, and is reported as not confirmed. */
  lemma TooManyRecoveriesExample(stamp: int)
    ensures (var w := World(PreparedMany(501), [], []);
             var (fault, next) := Recover(w, [], stamp, Kept);
             && Inv(w) && fault == Some(EventsNotConfirmed)
             && next.log == RecoveryEvents(RecoverRows(w.rows, [], stamp)) && |next.log| == 501)
  {
    var w := World(PreparedMany(501), [], []);
    var rs := RecoverRows(w.rows, [], stamp);
    AllRecovered(rs);
    RecoveryEventsShape(rs, stamp);
    RecoverConfirmedIff(w, [], stamp, Kept);
    assert [] + RecoveryEvents(rs) == RecoveryEvents(rs);
    hide PreparedMany, RecoveryEvents, RecoverRows;
  }
}
