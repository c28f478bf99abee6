// The journal of paid model calls (experimental_modeling/authoring.py:66-75, 112-115, 125-229).
module ModelCalls {
  import opened Options

  datatype CallState = Claimed | Sending | CancelRequested | Completed | Cancelled | Failed | Uncertain

  // States that block every new call.
  predicate Open(state: CallState) {
    state == Claimed || state == Sending || state == CancelRequested || state == Uncertain
  }

  // A modelcall record; money is in millionths of a dollar.
  datatype Row = Row(state: CallState, reserved: nat)

  type Rows = map<string, Row>

  // A worker thread: before its first section, before and during the provider call, after it,
  // and with the state that its last section will save.
  datatype Phase = Started | Ready | Calling | Returned | Finalizing(state: CallState)

  datatype Config = Config(budget: nat, maxCalls: nat)

  // Durable rows and what the provider has been asked; then the memory of the process.
  datatype State = State(rows: Rows, invoked: multiset<string>, config: Config, active: Option<string>,
                         cancelled: bool, workers: map<string, Phase>, closed: bool)

  // `atomic_json` writes, or raises without writing, or writes and then raises.
  datatype Save = Saved | Unsaved | SavedLate

  // Each section under the workbench lock is one step; so are the start and the return of the
  // provider call, which run outside it. The process may die between any two steps.
  datatype Event =
    | Submit(id: string, estimate: nat, approved: bool, save: Save, starts: bool)
    | Begin(id: string, pinned: bool, save: Save)
    | Invoke(id: string)
    | Return(id: string, outcome: Reply)
    | Finish(id: string, valid: bool)
    | Final(id: string, save: Save)
    | Interrupt(id: string, save: Save)
    | Close
    | Restart(config: Config)

  datatype Reply = Proposal | LostContact | Refusal

  function Put(rows: Rows, id: string, row: Row, save: Save): Rows {
    if save.Unsaved? then rows else rows[id := row]
  }

  // ---- The sum of the reservations ----

  ghost function Total(rows: Rows): nat {
    if rows == map[] then 0
    else
      var id :| id in rows;
      rows[id].reserved + Total(rows - {id})
  }

  lemma {:induction false} TotalWithout(rows: Rows, id: string)
    requires id in rows
    ensures Total(rows) == rows[id].reserved + Total(rows - {id})
  {
    var first :| first in rows && Total(rows) == rows[first].reserved + Total(rows - {first});
    if first != id {
      TotalWithout(rows - {first}, id);
      TotalWithout(rows - {id}, first);
      assert rows - {first} - {id} == rows - {id} - {first};
    }
  }

  lemma TotalWith(rows: Rows, id: string, row: Row)
    requires id !in rows
    ensures Total(rows[id := row]) == Total(rows) + row.reserved
  {
    TotalWithout(rows[id := row], id);
    assert rows[id := row] - {id} == rows;
  }

  lemma TotalReplaced(rows: Rows, id: string, row: Row)
    requires id in rows && row.reserved == rows[id].reserved
    ensures Total(rows[id := row]) == Total(rows)
  {
    TotalWithout(rows, id);
    TotalWithout(rows[id := row], id);
    assert rows[id := row] - {id} == rows - {id};
  }

  // ---- The steps ----

  predicate AnyOpen(rows: Rows) { exists id :: id in rows && Open(rows[id].state) }

  ghost predicate Admits(s: State, id: string, estimate: nat, approved: bool) {
    && approved && id !in s.rows && !s.closed && s.active.None? && !AnyOpen(s.rows)
    && |s.rows| < s.config.maxCalls && Total(s.rows) + estimate <= s.config.budget
  }

  ghost function AfterSubmit(s: State, id: string, estimate: nat, approved: bool, save: Save, starts: bool): State {
    if !Admits(s, id, estimate, approved) then s
    else
      var t := s.(rows := Put(s.rows, id, Row(Claimed, estimate), save));
      if !save.Saved? then t
      else if !starts then t.(cancelled := false)
      else t.(active := Some(id), cancelled := false, workers := t.workers[id := Started])
  }

  function AfterBegin(s: State, id: string, pinned: bool, save: Save): State
    requires id in s.workers && s.workers[id].Started? && id in s.rows
  {
    if s.cancelled then s.(workers := s.workers[id := Finalizing(Cancelled)])
    else if !pinned then s.(workers := s.workers[id := Finalizing(Failed)])
    else
      var t := s.(rows := Put(s.rows, id, Row(Sending, s.rows[id].reserved), save));
      t.(workers := t.workers[id := if save.Saved? then Ready else Finalizing(Failed)])
  }

  function AfterReply(outcome: Reply): Phase {
    match outcome
    case Proposal => Returned
    case LostContact => Finalizing(Uncertain)
    case Refusal => Finalizing(Failed)
  }

  function AfterFinal(s: State, id: string, save: Save): State
    requires id in s.workers && s.workers[id].Finalizing? && id in s.rows
  {
    s.(rows := Put(s.rows, id, Row(s.workers[id].state, s.rows[id].reserved), save), active := None,
       workers := s.workers - {id})
  }

  function AfterInterrupt(s: State, id: string, save: Save): State {
    if id !in s.rows || s.active != Some(id) then s
    else s.(cancelled := true, rows := Put(s.rows, id, Row(CancelRequested, s.rows[id].reserved), save))
  }

  predicate At(s: State, id: string, phase: Phase) { id in s.workers && s.workers[id] == phase && id in s.rows }

  // One event; an event whose thread is elsewhere changes nothing.
  ghost function After(s: State, e: Event): State {
    match e
    case Submit(id, estimate, approved, save, starts) => AfterSubmit(s, id, estimate, approved, save, starts)
    case Begin(id, pinned, save) => if At(s, id, Started) then AfterBegin(s, id, pinned, save) else s
    case Invoke(id) =>
      if At(s, id, Ready) then s.(workers := s.workers[id := Calling], invoked := s.invoked + multiset{id}) else s
    case Return(id, outcome) => if At(s, id, Calling) then s.(workers := s.workers[id := AfterReply(outcome)]) else s
    case Finish(id, valid) =>
      if At(s, id, Returned) then
        s.(workers := s.workers[id := Finalizing(if s.cancelled then Cancelled else if valid then Completed else Failed)])
      else s
    case Final(id, save) =>
      if id in s.workers && s.workers[id].Finalizing? && id in s.rows then AfterFinal(s, id, save) else s
    case Interrupt(id, save) => AfterInterrupt(s, id, save)
    case Close => s.(closed := true, cancelled := true)
    case Restart(config) => State(s.rows, s.invoked, config, None, false, map[], false)
  }

  ghost function Run(s: State, events: seq<Event>): State
    decreases |events|
  {
    if events == [] then s else Run(After(s, events[0]), events[1..])
  }

  // ---- What every step keeps ----

  predicate Unsent(phase: Phase) { phase.Started? || phase.Ready? }

  ghost predicate Good(s: State) {
    // A worker belongs to the active call, so there is at most one; its record is still open,
    // and no other record is.
    && (forall id :: id in s.workers <==> s.active == Some(id))
    && (s.active.Some? ==> forall id :: id in s.rows && Open(s.rows[id].state) ==> s.active == Some(id))
    && (forall id :: id in s.workers ==> id in s.rows && Open(s.rows[id].state))
    // The provider is asked at most once for a preview, after its record exists.
    && (forall id :: s.invoked[id] <= 1) && (forall id :: id in s.invoked ==> id in s.rows)
    && (forall id :: id in s.workers && Unsent(s.workers[id]) ==> id !in s.invoked)
  }

  lemma SubmitKeepsGood(s: State, id: string, estimate: nat, approved: bool, save: Save, starts: bool)
    requires Good(s)
    ensures Good(AfterSubmit(s, id, estimate, approved, save, starts))
  {
    if Admits(s, id, estimate, approved) {
      assert s.workers == map[];
    }
  }

  lemma BeginKeepsGood(s: State, id: string, pinned: bool, save: Save)
    requires Good(s) && At(s, id, Started)
    ensures Good(AfterBegin(s, id, pinned, save))
  {
  }

  lemma FinalKeepsGood(s: State, id: string, save: Save)
    requires Good(s) && id in s.workers && s.workers[id].Finalizing?
    ensures Good(AfterFinal(s, id, save))
  {
    assert s.active == Some(id);
  }

  lemma InterruptKeepsGood(s: State, id: string, save: Save)
    requires Good(s)
    ensures Good(AfterInterrupt(s, id, save))
  {
  }

  // A worker that moves on without asking the provider.
  lemma PhaseKeepsGood(s: State, id: string, phase: Phase)
    requires Good(s) && id in s.workers && !Unsent(phase)
    ensures Good(s.(workers := s.workers[id := phase]))
  {
  }

  lemma InvokeKeepsGood(s: State, id: string)
    requires Good(s) && At(s, id, Ready)
    ensures Good(s.(workers := s.workers[id := Calling], invoked := s.invoked + multiset{id}))
  {
    assert id !in s.invoked;
  }

  lemma StepKeepsGood(s: State, e: Event)
    requires Good(s)
    ensures Good(After(s, e))
  {
    match e
    case Submit(id, estimate, approved, save, starts) => SubmitKeepsGood(s, id, estimate, approved, save, starts);
    case Begin(id, pinned, save) => if At(s, id, Started) { BeginKeepsGood(s, id, pinned, save); }
    case Final(id, save) => if id in s.workers && s.workers[id].Finalizing? { FinalKeepsGood(s, id, save); }
    case Interrupt(id, save) => InterruptKeepsGood(s, id, save);
    case Invoke(id) => if At(s, id, Ready) { InvokeKeepsGood(s, id); }
    case Return(id, outcome) => if At(s, id, Calling) { PhaseKeepsGood(s, id, AfterReply(outcome)); }
    case Finish(id, valid) => if At(s, id, Returned) { PhaseKeepsGood(s, id, After(s, e).workers[id]); }
    case Close =>
    case Restart(config) =>
  }

  lemma {:induction false} RunKeepsGood(s: State, events: seq<Event>)
    requires Good(s)
    ensures Good(Run(s, events))
    decreases |events|
  {
    if events != [] {
      StepKeepsGood(s, events[0]);
      RunKeepsGood(After(s, events[0]), events[1..]);
    }
  }

  // Whatever happens, restarts included: one request per preview and one in flight.
  lemma AtMostOnce(start: Rows, config: Config, events: seq<Event>, id: string, other: string)
    ensures var s := Run(State(start, multiset{}, config, None, false, map[], false), events);
            s.invoked[id] <= 1 && (id in s.workers && other in s.workers ==> id == other)
  {
    var s := State(start, multiset{}, config, None, false, map[], false);
    assert Good(s);
    RunKeepsGood(s, events);
    var t := Run(s, events);
    assert id in t.workers ==> t.active == Some(id);
  }

  // A record that is not the active call's never changes again.
  lemma {:induction false} FinalIsFinal(s: State, events: seq<Event>, id: string)
    requires Good(s) && id in s.rows && s.active != Some(id)
    ensures id in Run(s, events).rows && Run(s, events).rows[id] == s.rows[id]
    decreases |events|
  {
    if events != [] {
      var t := After(s, events[0]);
      StepKeepsGood(s, events[0]);
      StepKeepsRow(s, events[0], id);
      FinalIsFinal(t, events[1..], id);
    }
  }

  lemma StepKeepsRow(s: State, e: Event, id: string)
    requires Good(s) && id in s.rows && s.active != Some(id)
    ensures var t := After(s, e); id in t.rows && t.rows[id] == s.rows[id] && t.active != Some(id)
  {
    match e
    case Begin(other, pinned, save) =>
      if At(s, other, Started) {
        BeginRecords(s, other, pinned, save);
        RewriteKeepsRow(s, AfterBegin(s, other, pinned, save), other, id);
      }
    case Final(other, save) =>
      if other in s.workers && s.workers[other].Finalizing? && other in s.rows {
        FinalRecords(s, other, save);
        RewriteKeepsRow(s, AfterFinal(s, other, save), other, id);
      }
    case Interrupt(other, save) =>
      if other in s.rows && s.active == Some(other) {
        InterruptRecords(s, other, save);
        RewriteKeepsRow(s, AfterInterrupt(s, other, save), other, id);
      }
    case _ =>
  }

  lemma RewriteKeepsRow(s: State, t: State, other: string, id: string)
    requires t.rows == s.rows || Rewrites(s, t, other)
    requires id in s.rows && id != other
    ensures id in t.rows && t.rows[id] == s.rows[id]
  {
  }

  // A record left open by a crash, a failed save or an uncertain answer ends all calls: nothing
  // is admitted or sent after it.
  lemma {:induction false} OpenRecordEndsCalls(s: State, events: seq<Event>, id: string)
    requires Good(s) && id in s.rows && Open(s.rows[id].state) && s.active != Some(id)
    ensures var t := Run(s, events); t.rows == s.rows && t.invoked == s.invoked
    decreases |events|
  {
    if events != [] {
      StepKeepsGood(s, events[0]);
      OpenRecordBlocks(s, events[0], id);
      OpenRecordEndsCalls(After(s, events[0]), events[1..], id);
    }
  }

  lemma OpenRecordBlocks(s: State, e: Event, id: string)
    requires Good(s) && id in s.rows && Open(s.rows[id].state) && s.active != Some(id)
    ensures var t := After(s, e); t.rows == s.rows && t.invoked == s.invoked && t.active != Some(id)
  {
    assert s.active.None?;
    assert s.workers == map[];
  }

  // ---- How a call ends ----

  // Nothing but the record of this call may differ, and the provider has been asked nothing more.
  ghost predicate OnlyThis(s: State, t: State, id: string) {
    && t.invoked == s.invoked && t.rows.Keys == s.rows.Keys
    && forall other :: other in s.rows && other != id ==> t.rows[other] == s.rows[other]
  }

  // A call whose contact was lost: its worker will record it as uncertain, or is gone; its record
  // stays open either way.
  ghost predicate Lost(s: State, t: State, id: string) {
    && OnlyThis(s, t, id) && id in t.rows && Open(t.rows[id].state)
    && (t.active == Some(id) ==> id in t.workers && t.workers[id] == Finalizing(Uncertain))
  }

  lemma LostBlocks(s: State, t: State, id: string, other: string, estimate: nat, approved: bool)
    requires Lost(s, t, id)
    ensures !Admits(t, other, estimate, approved)
  {
  }

  // While the worker of the lost call is there, it is the only one.
  lemma LiveStepKeepsLost(s: State, t: State, e: Event, id: string)
    requires Good(t) && Lost(s, t, id) && t.active == Some(id)
    ensures Lost(s, After(t, e), id)
  {
    assert forall other :: other in t.workers ==> other == id;
  }

  lemma StepKeepsLost(s: State, t: State, e: Event, id: string)
    requires Good(t) && Lost(s, t, id)
    ensures Lost(s, After(t, e), id)
  {
    if t.active == Some(id) {
      LiveStepKeepsLost(s, t, e, id);
    } else {
      OpenRecordBlocks(t, e, id);
    }
  }

  lemma {:induction false} RunKeepsLost(s: State, t: State, events: seq<Event>, id: string)
    requires Good(t) && Lost(s, t, id)
    ensures Lost(s, Run(t, events), id)
    decreases |events|
  {
    if events != [] {
      StepKeepsGood(t, events[0]);
      StepKeepsLost(s, t, events[0], id);
      RunKeepsLost(s, After(t, events[0]), events[1..], id);
    }
  }

  // When contact is lost during the call, no other call is ever admitted and the provider is never
  // asked again, whatever is saved, lost or restarted; the record stays open.
  lemma LostContactEndsCalls(s: State, events: seq<Event>, id: string, other: string, estimate: nat, approved: bool)
    requires Good(s) && At(s, id, Calling)
    ensures var t := Run(After(s, Event.Return(id, LostContact)), events);
            && OnlyThis(s, t, id) && id in t.rows && Open(t.rows[id].state) && !Admits(t, other, estimate, approved)
  {
    var lost := After(s, Event.Return(id, LostContact));
    StepKeepsGood(s, Event.Return(id, LostContact));
    RunKeepsLost(s, lost, events, id);
    LostBlocks(s, Run(lost, events), id, other, estimate, approved);
  }

  // A saved end of a call frees the journal: budget and limit alone decide about the next one.
  ghost predicate Freed(s: State, t: State, id: string, state: CallState)
    requires id in s.rows
  {
    && t.rows == s.rows[id := Row(state, s.rows[id].reserved)] && t.invoked == s.invoked
    && forall other, estimate, approved :: Admits(t, other, estimate, approved) <==>
         && approved && other !in s.rows && !s.closed && |s.rows| < s.config.maxCalls
         && Total(s.rows) + estimate <= s.config.budget
  }

  lemma EndFrees(s: State, id: string, state: CallState, save: Save)
    requires Good(s) && id in s.workers && s.workers[id] == Finalizing(state) && !Open(state) && !save.Unsaved?
    ensures Freed(s, After(s, Event.Final(id, save)), id, state)
  {
    var t := After(s, Event.Final(id, save));
    TotalReplaced(s.rows, id, Row(state, s.rows[id].reserved));
    assert t.rows.Keys == s.rows.Keys;
    assert |t.rows| == |s.rows| by {
      assert |t.rows.Keys| == |t.rows| && |s.rows.Keys| == |s.rows|;
    }
    assert !AnyOpen(t.rows);
  }

  // A refusal ends as failed and blocks nothing.
  lemma RefusalFrees(s: State, id: string, save: Save)
    requires Good(s) && At(s, id, Calling) && !save.Unsaved?
    ensures Freed(s, After(After(s, Event.Return(id, Refusal)), Event.Final(id, save)), id, Failed)
  {
    StepKeepsGood(s, Event.Return(id, Refusal));
    EndFrees(After(s, Event.Return(id, Refusal)), id, Failed, save);
  }

  // An answer ends as completed exactly when it is valid and nothing was cancelled.
  lemma AnswerFrees(s: State, id: string, valid: bool, save: Save)
    requires Good(s) && At(s, id, Calling) && !save.Unsaved?
    ensures var t := After(After(s, Event.Return(id, Proposal)), Event.Finish(id, valid));
            Freed(s, After(t, Event.Final(id, save)), id,
                  if s.cancelled then Cancelled else if valid then Completed else Failed)
  {
    var returned := After(s, Event.Return(id, Proposal));
    StepKeepsGood(s, Event.Return(id, Proposal));
    StepKeepsGood(returned, Event.Finish(id, valid));
    EndFrees(After(returned, Event.Finish(id, valid)), id,
             if s.cancelled then Cancelled else if valid then Completed else Failed, save);
  }

  // A call that was cancelled before it was finished, and one that is over.
  ghost predicate Stopped(s: State, id: string) {
    && id in s.rows && s.rows[id].state != Completed
    && (s.active == Some(id) ==> s.cancelled && id in s.workers && s.workers[id] != Finalizing(Completed))
  }

  lemma StepKeepsStopped(s: State, e: Event, id: string)
    requires Good(s) && Stopped(s, id)
    ensures Stopped(After(s, e), id)
  {
    if s.active != Some(id) {
      StepKeepsRow(s, e, id);
    } else {
      assert forall other :: other in s.workers ==> other == id;
    }
  }

  // Once cancelled in time, a call is never recorded as completed.
  lemma {:induction false} CancelledNeverCompletes(s: State, events: seq<Event>, id: string)
    requires Good(s) && Stopped(s, id)
    ensures id in Run(s, events).rows && Run(s, events).rows[id].state != Completed
    decreases |events|
  {
    if events != [] {
      StepKeepsGood(s, events[0]);
      StepKeepsStopped(s, events[0], id);
      CancelledNeverCompletes(After(s, events[0]), events[1..], id);
    }
  }

  // A call that will not be sent: cancelled before its worker's first section, or past it unsent.
  ghost predicate Withheld(s: State, id: string) {
    && id in s.rows && id !in s.invoked
    && (s.active == Some(id) ==>
          id in s.workers && (s.workers[id].Finalizing? || (s.workers[id].Started? && s.cancelled)))
  }

  lemma StepKeepsWithheld(s: State, e: Event, id: string)
    requires Good(s) && Withheld(s, id)
    ensures Withheld(After(s, e), id)
  {
    if s.active != Some(id) {
      StepKeepsRow(s, e, id);
    }
    assert forall other :: other in s.workers ==> s.active == Some(other);
  }

  // Then the provider is never asked.
  lemma {:induction false} WithheldIsNeverSent(s: State, events: seq<Event>, id: string)
    requires Good(s) && Withheld(s, id)
    ensures id !in Run(s, events).invoked
    decreases |events|
  {
    if events != [] {
      StepKeepsGood(s, events[0]);
      StepKeepsWithheld(s, events[0], id);
      WithheldIsNeverSent(After(s, events[0]), events[1..], id);
    }
  }

  // What was asked of the provider for this preview, or is about to be, is recorded as more than
  // claimed.
  predicate Announced(s: State, id: string) {
    && (id in s.invoked ==> id in s.rows && s.rows[id].state != Claimed)
    && (id in s.workers ==> s.workers[id] != Finalizing(Claimed) && id in s.rows
                            && (s.workers[id].Started? || s.workers[id].Finalizing? || s.rows[id].state != Claimed))
  }

  lemma StepKeepsAnnounced(s: State, e: Event, id: string)
    requires Good(s) && Announced(s, id)
    ensures Announced(After(s, e), id)
  {
    if s.active == Some(id) {
      LiveStepKeepsAnnounced(s, e, id);
    } else if id in s.rows {
      StepKeepsRow(s, e, id);
    }
  }

  lemma LiveStepKeepsAnnounced(s: State, e: Event, id: string)
    requires Good(s) && Announced(s, id) && s.active == Some(id)
    ensures Announced(After(s, e), id)
  {
    assert forall other :: other in s.workers ==> other == id;
  }

  // So the journal says that a request may be on its way before the provider is asked.
  lemma {:induction false} SentIsAnnounced(s: State, events: seq<Event>, id: string)
    requires Good(s) && Announced(s, id) && id in Run(s, events).invoked
    ensures id in Run(s, events).rows && Run(s, events).rows[id].state != Claimed
    decreases |events|
  {
    if events != [] {
      StepKeepsGood(s, events[0]);
      StepKeepsAnnounced(s, events[0], id);
      SentIsAnnounced(After(s, events[0]), events[1..], id);
    }
  }

  // This event finishes a valid answer to the call, with nothing cancelled.
  predicate Answers(s: State, e: Event, id: string) {
    e == Event.Finish(id, true) && At(s, id, Returned) && !s.cancelled
  }

  ghost predicate AnsweredAt(s: State, events: seq<Event>, id: string, i: nat) {
    i < |events| && Answers(Run(s, events[..i]), events[i], id)
  }

  ghost predicate Pending(s: State, id: string) {
    (id in s.rows ==> s.rows[id].state != Completed) && (id in s.workers ==> s.workers[id] != Finalizing(Completed))
  }

  lemma StepKeepsPending(s: State, e: Event, id: string)
    requires Good(s) && Pending(s, id) && !Answers(s, e, id)
    ensures Pending(After(s, e), id)
  {
  }

  lemma AnsweredLater(s: State, events: seq<Event>, id: string, i: nat)
    requires events != [] && AnsweredAt(After(s, events[0]), events[1..], id, i)
    ensures AnsweredAt(s, events, id, i + 1)
  {
    assert events[..i + 1][0] == events[0] && events[..i + 1][1..] == events[1..][..i];
  }

  // A call is recorded as completed only after its valid answer was finished, uncancelled.
  lemma {:induction false} CompletedWasAnswered(s: State, events: seq<Event>, id: string) returns (i: nat)
    requires Good(s) && Pending(s, id) && id in Run(s, events).rows && Run(s, events).rows[id].state == Completed
    ensures AnsweredAt(s, events, id, i)
    decreases |events|
  {
    var t := After(s, events[0]);
    StepKeepsGood(s, events[0]);
    if !Answers(s, events[0], id) {
      StepKeepsPending(s, events[0], id);
      i := CompletedWasAnswered(t, events[1..], id);
      AnsweredLater(s, events, id, i);
      i := i + 1;
    } else {
      assert events[..0] == [];
      i := 0;
    }
  }

  // ---- Budget and count ----

  predicate Within(config: Config, rows: Rows, total: nat) { total <= config.budget && |rows| <= config.maxCalls }

  // A step adds the record it admits, or rewrites the record of the active call, or neither.
  predicate Rewrites(s: State, t: State, id: string) {
    id in s.rows && id in t.rows && t.rows == s.rows[id := t.rows[id]] && t.rows[id].reserved == s.rows[id].reserved
  }

  lemma PutRewrites(s: State, t: State, id: string, row: Row, save: Save)
    requires id in s.rows && row.reserved == s.rows[id].reserved && t.rows == Put(s.rows, id, row, save)
    ensures t.rows == s.rows || Rewrites(s, t, id)
  {
    assert save.Unsaved? || t.rows == s.rows[id := t.rows[id]];
  }

  lemma BeginRecords(s: State, id: string, pinned: bool, save: Save)
    requires At(s, id, Started)
    ensures var t := AfterBegin(s, id, pinned, save); t.rows == s.rows || Rewrites(s, t, id)
  {
    if !s.cancelled && pinned {
      PutRewrites(s, AfterBegin(s, id, pinned, save), id, Row(Sending, s.rows[id].reserved), save);
    }
  }

  lemma FinalRecords(s: State, id: string, save: Save)
    requires id in s.workers && s.workers[id].Finalizing? && id in s.rows
    ensures var t := AfterFinal(s, id, save); t.rows == s.rows || Rewrites(s, t, id)
  {
    PutRewrites(s, AfterFinal(s, id, save), id, Row(s.workers[id].state, s.rows[id].reserved), save);
  }

  lemma InterruptRecords(s: State, id: string, save: Save)
    requires id in s.rows && s.active == Some(id)
    ensures var t := AfterInterrupt(s, id, save); t.rows == s.rows || Rewrites(s, t, id)
  {
    PutRewrites(s, AfterInterrupt(s, id, save), id, Row(CancelRequested, s.rows[id].reserved), save);
  }

  lemma SubmitKeepsBudget(s: State, id: string, estimate: nat, approved: bool, save: Save, starts: bool)
    requires Within(s.config, s.rows, Total(s.rows))
    ensures var t := AfterSubmit(s, id, estimate, approved, save, starts);
            t.config == s.config && Within(t.config, t.rows, Total(t.rows))
  {
    if Admits(s, id, estimate, approved) && !save.Unsaved? {
      TotalWith(s.rows, id, Row(Claimed, estimate));
    }
  }

  lemma RewriteKeepsBudget(s: State, t: State, id: string)
    requires t.config == s.config && (t.rows == s.rows || Rewrites(s, t, id))
    requires Within(s.config, s.rows, Total(s.rows))
    ensures Within(t.config, t.rows, Total(t.rows))
  {
    if t.rows != s.rows {
      TotalReplaced(s.rows, id, t.rows[id]);
      assert t.rows.Keys == s.rows.Keys;
    }
  }

  lemma StepKeepsBudget(s: State, e: Event)
    requires Within(s.config, s.rows, Total(s.rows)) && (e.Restart? ==> e.config == s.config)
    ensures var t := After(s, e); t.config == s.config && Within(t.config, t.rows, Total(t.rows))
  {
    match e
    case Submit(id, estimate, approved, save, starts) => SubmitKeepsBudget(s, id, estimate, approved, save, starts);
    case Begin(id, pinned, save) =>
      if At(s, id, Started) {
        BeginRecords(s, id, pinned, save);
        RewriteKeepsBudget(s, AfterBegin(s, id, pinned, save), id);
      }
    case Final(id, save) =>
      if id in s.workers && s.workers[id].Finalizing? && id in s.rows {
        FinalRecords(s, id, save);
        RewriteKeepsBudget(s, AfterFinal(s, id, save), id);
      }
    case Interrupt(id, save) =>
      if id in s.rows && s.active == Some(id) {
        InterruptRecords(s, id, save);
        RewriteKeepsBudget(s, AfterInterrupt(s, id, save), id);
      }
    case _ =>
  }

  // Whatever was reserved before, and under whatever configuration: an admitted call leaves the
  // reservations, its own included, within the current budget and the records within the limit.
  lemma AdmittedIsWithin(s: State, id: string, estimate: nat, approved: bool, save: Save, starts: bool)
    requires Admits(s, id, estimate, approved)
    ensures var t := AfterSubmit(s, id, estimate, approved, save, starts);
            Within(s.config, t.rows, Total(t.rows)) && (!save.Unsaved? ==> Total(t.rows) == Total(s.rows) + estimate)
  {
    if !save.Unsaved? {
      TotalWith(s.rows, id, Row(Claimed, estimate));
    }
  }

  // And that lasts as long as the configuration does.
  lemma AdmittedStaysWithin(s: State, id: string, estimate: nat, approved: bool, save: Save, starts: bool, events: seq<Event>)
    requires Good(s) && Admits(s, id, estimate, approved)
    requires forall e :: e in events && e.Restart? ==> e.config == s.config
    ensures var t := Run(AfterSubmit(s, id, estimate, approved, save, starts), events);
            Within(s.config, t.rows, Total(t.rows))
  {
    AdmittedIsWithin(s, id, estimate, approved, save, starts);
    SubmitKeepsGood(s, id, estimate, approved, save, starts);
    RunKeepsBudget(AfterSubmit(s, id, estimate, approved, save, starts), events);
  }

  // Under one configuration the reservations never exceed the budget, nor the calls the limit.
  lemma {:induction false} RunKeepsBudget(s: State, events: seq<Event>)
    requires Good(s) && Within(s.config, s.rows, Total(s.rows))
    requires forall e :: e in events && e.Restart? ==> e.config == s.config
    ensures var t := Run(s, events); Within(s.config, t.rows, Total(t.rows))
    decreases |events|
  {
    if events != [] {
      StepKeepsGood(s, events[0]);
      StepKeepsBudget(s, events[0]);
      RunKeepsBudget(After(s, events[0]), events[1..]);
    }
  }

  // ---- The estimate ----

  // `quantize(..., ROUND_UP)` of a cost in millionths of a dollar: token counts times prices in
  // dollars a million tokens.
  function Estimate(inputTokens: nat, inputPrice: real, outputTokens: nat, outputPrice: real): nat
    requires inputPrice > 0.0 && outputPrice > 0.0
  {
    var cost := inputTokens as real * inputPrice + outputTokens as real * outputPrice;
    var floor := cost.Floor;
    if floor as real == cost then floor else floor + 1
  }

  // The least whole number of millionths that covers the cost, so never below it.
  lemma EstimateIsLeastCover(inputTokens: nat, inputPrice: real, outputTokens: nat, outputPrice: real, amount: nat)
    requires inputPrice > 0.0 && outputPrice > 0.0
    ensures amount as real >= inputTokens as real * inputPrice + outputTokens as real * outputPrice
        <==> amount >= Estimate(inputTokens, inputPrice, outputTokens, outputPrice)
  {
  }

  // What `call` shows: an open record with no live worker is uncertain.
  function Shown(s: State, id: string): CallState
    requires id in s.rows
  {
    var state := s.rows[id].state;
    if Open(state) && !(s.active == Some(id) && id in s.workers) then Uncertain else state
  }

  // So what is shown as uncertain, or is open, blocks every call.
  lemma UncertainBlocks(s: State, id: string, estimate: nat, shown: string)
    requires shown in s.rows && Open(Shown(s, shown))
    ensures !Admits(s, id, estimate, true)
  {
  }

  // What is shown as ended is recorded so for good; a record is shown as it is while its worker
  // lives, and an open one is shown as uncertain without a worker.
  lemma ShownIsFinal(s: State, events: seq<Event>, id: string)
    requires Good(s) && id in s.rows
    ensures !Open(Shown(s, id)) ==> id in Run(s, events).rows && Run(s, events).rows[id].state == Shown(s, id)
    ensures id in s.workers ==> Shown(s, id) == s.rows[id].state
    ensures id !in s.workers && Open(s.rows[id].state) ==> Shown(s, id) == Uncertain
  {
    if !Open(Shown(s, id)) {
      FinalIsFinal(s, events, id);
    }
  }

  // `sum(money(row["reserved_usd"]) for row in rows)`
  method Reserved(rows: Rows) returns (total: nat)
    ensures total == Total(rows)
  {
    total := 0;
    var left := rows;
    while left != map[]
      invariant total + Total(left) == Total(rows)
      decreases |left|
    {
      var id :| id in left;
      TotalWithout(left, id);
      assert (left - {id}).Keys == left.Keys - {id};
      total := total + left[id].reserved;
      left := left - {id};
    }
  }

  // One process: its memory and the journal it finds. A worker's sections are its methods too.
  class Authoring {
    const config: Config
    var rows: Rows
    var invoked: multiset<string>
    var active: Option<string>
    var cancelled: bool
    var workers: map<string, Phase>
    var closed: bool

    ghost function View(): State
      reads this
    {
      State(rows, invoked, config, active, cancelled, workers, closed)
    }

    ghost predicate Valid()
      reads this
    {
      Good(View())
    }

    // A start, or a restart after the process died: memory is empty, the journal is not.
    constructor (before: State, config: Config)
      requires Good(before)
      ensures Valid() && View() == After(before, Restart(config))
    {
      this.config, rows, invoked := config, before.rows, before.invoked;
      active, cancelled, workers, closed := None, false, map[], false;
    }

    // The refusals of `submit`, in their order.
    method Admitted(id: string, estimate: nat, approved: bool) returns (admitted: bool)
      ensures admitted <==> Admits(View(), id, estimate, approved)
    {
      if !approved || id in rows || closed || active.Some? || AnyOpen(rows) || |rows| >= config.maxCalls {
        return false;
      }
      var reserved := Reserved(rows);
      return reserved + estimate <= config.budget;
    }

    method Submit(id: string, estimate: nat, approved: bool, save: Save, starts: bool)
      requires Valid()
      modifies this
      ensures Valid() && View() == AfterSubmit(old(View()), id, estimate, approved, save, starts)
    {
      SubmitKeepsGood(View(), id, estimate, approved, save, starts);
      var admitted := Admitted(id, estimate, approved);
      if !admitted || save.Unsaved? {
        return;
      }
      rows := rows[id := Row(Claimed, estimate)];
      if save.SavedLate? {
        return;
      }
      active, cancelled := Some(id), false;
      if starts {
        workers := workers[id := Started];
      } else {
        active := None;
      }
    }

    // The worker's first section.
    method Begin(id: string, pinned: bool, save: Save)
      requires Valid() && At(View(), id, Started)
      modifies this
      ensures Valid() && View() == AfterBegin(old(View()), id, pinned, save)
    {
      BeginKeepsGood(View(), id, pinned, save);
      if cancelled {
        workers := workers[id := Finalizing(Cancelled)];
      } else if !pinned {
        workers := workers[id := Finalizing(Failed)];
      } else {
        if !save.Unsaved? {
          rows := rows[id := Row(Sending, rows[id].reserved)];
        }
        workers := workers[id := if save.Saved? then Ready else Finalizing(Failed)];
      }
    }

    // `provider.generate` is entered, without the lock.
    method Invoke(id: string)
      requires Valid() && At(View(), id, Ready)
      modifies this
      ensures Valid() && View() == After(old(View()), Event.Invoke(id)) && old(invoked)[id] == 0
    {
      InvokeKeepsGood(View(), id);
      assert id !in invoked;
      invoked := invoked + multiset{id};
      workers := workers[id := Calling];
    }

    method Return(id: string, outcome: Reply)
      requires Valid() && At(View(), id, Calling)
      modifies this
      ensures Valid() && View() == After(old(View()), Event.Return(id, outcome))
    {
      PhaseKeepsGood(View(), id, AfterReply(outcome));
      var next := Returned;
      if outcome.LostContact? {
        next := Finalizing(Uncertain);
      } else if outcome.Refusal? {
        next := Finalizing(Failed);
      }
      assert next == AfterReply(outcome);
      workers := workers[id := next];
    }

    // The section after the provider answered: nothing is published once cancelled.
    method Finish(id: string, valid: bool)
      requires Valid() && At(View(), id, Returned)
      modifies this
      ensures Valid() && View() == After(old(View()), Event.Finish(id, valid))
    {
      PhaseKeepsGood(View(), id, After(View(), Event.Finish(id, valid)).workers[id]);
      var state := Failed;
      if cancelled {
        state := Cancelled;
      } else if valid {
        state := Completed;
      }
      workers := workers[id := Finalizing(state)];
    }

    // The `finally` section: the last write of this record, whether or not it succeeds.
    method Final(id: string, save: Save)
      requires Valid() && id in workers && workers[id].Finalizing? && id in rows
      modifies this
      ensures Valid() && View() == AfterFinal(old(View()), id, save)
    {
      FinalKeepsGood(View(), id, save);
      if !save.Unsaved? {
        rows := rows[id := Row(workers[id].state, rows[id].reserved)];
      }
      active := None;
      workers := workers - {id};
    }

    method Interrupt(id: string, save: Save)
      requires Valid()
      modifies this
      ensures Valid() && View() == AfterInterrupt(old(View()), id, save)
      ensures old(active) == Some(id) && id in old(rows) ==> cancelled
      ensures old(active) == Some(id) && id in old(rows) && save.Saved? ==>
                id in rows && rows[id].state == CancelRequested && rows[id].reserved == old(rows)[id].reserved
    {
      InterruptKeepsGood(View(), id, save);
      if id in rows && active == Some(id) {
        cancelled := true;
        if !save.Unsaved? {
          rows := rows[id := Row(CancelRequested, rows[id].reserved)];
        }
      }
    }

    method Close()
      requires Valid()
      modifies this
      ensures Valid() && View() == After(old(View()), Event.Close)
    {
      closed, cancelled := true, true;
    }
  }
}
