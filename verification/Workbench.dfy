// Permission to run, consumed once (experimental_modeling/workbench.py:168-192, 271-376).
module Workbench {
  import opened Options

  datatype OpState = Claimed | Running | InterruptionRequested | Finished | Failed | Interrupted | FailedBefore

  predicate Terminal(state: OpState) { state.Finished? || state.Failed? || state.Interrupted? || state.FailedBefore? }

  type Records = map<string, OpState>

  // `run` between its effects: about to spawn, to start the monitor, to record the running
  // state, or, when no monitor could start, to wait for the child itself.
  datatype Phase = Spawning | Monitoring | Recording | Waiting

  datatype Holder = Holder(id: string, phase: Phase)

  // Durable records; the children ever spawned and those still alive, orphans included; then
  // the memory of the process. A child is known by the inspection it runs.
  datatype State = State(records: Records, spawned: multiset<string>, alive: set<string>, holder: Option<Holder>,
                         child: Option<string>, watchers: set<string>, stopping: bool)

  // `atomic_json` writes, or raises without writing, or writes and then raises.
  datatype Save = Saved | Unsaved | SavedLate

  // How a child ends for its supervisor: its exit code, and whether its output could be read.
  datatype Ending = Ending(readable: bool, code: int)

  const SIGINT := 2
  const SIGTERM := 15

  // Each effect is one step, and the process may die between any two. `run` holds the lock from
  // its claim to its return, so the other locked sections wait while there is a holder.
  datatype Event =
    | Claim(id: string, approved: bool, save: Save)
    | Spawn(id: string, works: bool, save: Save)
    | Monitor(id: string, starts: bool)
    | Record(id: string, save: Save)
    | Wait(id: string, end: Ending, save: Save)
    | Exit(id: string)
    | Watch(id: string, end: Ending, save: Save)
    | Interrupt(id: string, save: Save)
    | Close
    | Restart

  function Put(records: Records, id: string, state: OpState, save: Save): Records {
    if save.Unsaved? then records else records[id := state]
  }

  // What `operation` shows.
  datatype Shown = Known(state: OpState) | Finalizing | Lost

  function ShownState(s: State, id: string): Shown
    requires id in s.records
  {
    if Terminal(s.records[id]) || (s.child == Some(id) && id in s.alive) then Known(s.records[id])
    else if s.child == Some(id) && id in s.watchers then Finalizing
    else Lost
  }

  // The states in which another build must not start.
  predicate Blocking(shown: Shown) { !shown.Known? || !Terminal(shown.state) }

  predicate MayClaim(s: State, id: string, approved: bool) {
    && approved && id !in s.records && !s.stopping && s.holder.None?
    && !(exists prior :: prior in s.records && Blocking(ShownState(s, prior)))
  }

  function AfterClaim(s: State, id: string, approved: bool, save: Save): State {
    if !MayClaim(s, id, approved) then s
    else s.(records := Put(s.records, id, Claimed, save),
            holder := if save.Saved? then Some(Holder(id, Spawning)) else None)
  }

  predicate Holds(s: State, id: string, phase: Phase) { s.holder == Some(Holder(id, phase)) && id in s.records }

  function AfterSpawn(s: State, id: string, works: bool, save: Save): State {
    if works then
      s.(spawned := s.spawned + multiset{id}, alive := s.alive + {id}, child := Some(id),
         holder := Some(Holder(id, Monitoring)))
    else s.(records := Put(s.records, id, FailedBefore, save), holder := None)
  }

  function AfterMonitor(s: State, id: string, starts: bool): State {
    if starts then s.(watchers := s.watchers + {id}, holder := Some(Holder(id, Recording)))
    else s.(holder := Some(Holder(id, Waiting)))
  }

  // The state a child's supervisor records.
  function Ended(end: Ending): (state: OpState)
    ensures Terminal(state)
  {
    if !end.readable then Failed
    else if end.code in {0, 1} then Finished
    else if end.code in {130, -SIGTERM, -SIGINT} then Interrupted
    else Failed
  }

  predicate MayWatch(s: State, id: string) { id in s.watchers && id !in s.alive && s.holder.None? && id in s.records }

  predicate MayInterrupt(s: State, id: string) {
    s.holder.None? && s.child == Some(id) && id in s.alive && id in s.records
  }

  // One event; an event that cannot happen here changes nothing.
  function After(s: State, e: Event): State {
    match e
    case Claim(id, approved, save) => AfterClaim(s, id, approved, save)
    case Spawn(id, works, save) => if Holds(s, id, Spawning) then AfterSpawn(s, id, works, save) else s
    case Monitor(id, starts) => if Holds(s, id, Monitoring) then AfterMonitor(s, id, starts) else s
    case Record(id, save) =>
      if Holds(s, id, Recording) then s.(records := Put(s.records, id, Running, save), holder := None) else s
    case Wait(id, end, save) =>
      if Holds(s, id, Waiting) && id !in s.alive then
        s.(records := Put(s.records, id, Ended(end), save), holder := None)
      else s
    case Exit(id) => s.(alive := s.alive - {id})
    case Watch(id, end, save) =>
      if MayWatch(s, id) then
        s.(records := Put(s.records, id, Ended(end), save), watchers := s.watchers - {id})
      else s
    case Interrupt(id, save) =>
      if MayInterrupt(s, id) then s.(records := Put(s.records, id, InterruptionRequested, save)) else s
    case Close => if s.holder.None? then s.(stopping := true) else s
    case Restart => State(s.records, s.spawned, s.alive, None, None, {}, false)
  }

  function Run(s: State, events: seq<Event>): State
    decreases |events|
  {
    if events == [] then s else Run(After(s, events[0]), events[1..])
  }

  // ---- What every step keeps ----

  predicate OpenRecord(s: State, id: string) { id in s.records && !Terminal(s.records[id]) }

  ghost predicate Good(s: State) {
    // At most one record is open, and whatever still lives or will write belongs to it.
    && (forall a, b :: OpenRecord(s, a) && OpenRecord(s, b) ==> a == b)
    && (forall id :: id in s.alive || id in s.watchers ==> OpenRecord(s, id) && s.spawned[id] == 1)
    && (forall id :: id in s.watchers ==> s.child == Some(id))
    && (s.holder.Some? ==> OpenRecord(s, s.holder.value.id))
    // A child is spawned at most once for an inspection, and after its record exists.
    && (forall id :: s.spawned[id] <= 1) && (forall id :: id in s.spawned ==> id in s.records)
    && (s.holder.Some? ==> var h := s.holder.value;
          (if h.phase.Spawning? then s.spawned[h.id] == 0 else s.spawned[h.id] == 1 && s.child == Some(h.id))
          && (h.id in s.watchers <==> h.phase.Recording?))
  }

  lemma ClaimKeepsGood(s: State, id: string, approved: bool, save: Save)
    requires Good(s)
    ensures Good(AfterClaim(s, id, approved, save))
  {
    if MayClaim(s, id, approved) {
      forall prior | prior in s.records ensures Terminal(s.records[prior]) {
        assert !Blocking(ShownState(s, prior));
      }
      assert id !in s.spawned;
    }
  }

  lemma SpawnKeepsGood(s: State, id: string, works: bool, save: Save)
    requires Good(s) && Holds(s, id, Spawning)
    ensures Good(AfterSpawn(s, id, works, save))
  {
    var t := AfterSpawn(s, id, works, save);
    OnlyOpen(s, id);
    OpenComesFrom(s, t, id);
  }

  lemma OnlyOpen(s: State, id: string)
    requires Good(s) && OpenRecord(s, id)
    ensures forall other :: OpenRecord(s, other) ==> other == id
    ensures forall other :: other in s.alive || other in s.watchers ==> other == id && s.spawned[id] == 1
  {
  }

  // A step that at most rewrites this record opens no other.
  lemma OpenComesFrom(s: State, t: State, id: string)
    requires id in s.records
    requires t.records == s.records || (id in t.records && t.records == s.records[id := t.records[id]])
    ensures t.records.Keys == s.records.Keys
    ensures forall other :: other != id ==> (OpenRecord(t, other) <==> OpenRecord(s, other))
  {
  }

  lemma MonitorKeepsGood(s: State, id: string, starts: bool)
    requires Good(s) && Holds(s, id, Monitoring)
    ensures Good(AfterMonitor(s, id, starts))
  {
    OnlyOpen(s, id);
    OpenComesFrom(s, AfterMonitor(s, id, starts), id);
  }

  lemma StepKeepsGood(s: State, e: Event)
    requires Good(s)
    ensures Good(After(s, e))
  {
    match e
    case Claim(id, approved, save) => ClaimKeepsGood(s, id, approved, save);
    case Spawn(id, works, save) => if Holds(s, id, Spawning) { SpawnKeepsGood(s, id, works, save); }
    case Monitor(id, starts) => if Holds(s, id, Monitoring) { MonitorKeepsGood(s, id, starts); }
    case Record(id, save) => if Holds(s, id, Recording) { RecordKeepsGood(s, id, save); }
    case Wait(id, end, save) => if Holds(s, id, Waiting) { WaitKeepsGood(s, id, end, save); }
    case Watch(id, end, save) => if MayWatch(s, id) { WatchKeepsGood(s, id, end, save); }
    case Interrupt(id, save) => if MayInterrupt(s, id) { InterruptKeepsGood(s, id, save); }
    case _ => MemoryKeepsGood(s, e);
  }

  lemma WaitKeepsGood(s: State, id: string, end: Ending, save: Save)
    requires Good(s) && Holds(s, id, Waiting)
    ensures Good(After(s, Event.Wait(id, end, save)))
  {
    OnlyOpen(s, id);
    OpenComesFrom(s, After(s, Event.Wait(id, end, save)), id);
  }

  lemma WatchKeepsGood(s: State, id: string, end: Ending, save: Save)
    requires Good(s) && MayWatch(s, id)
    ensures Good(After(s, Event.Watch(id, end, save)))
  {
    OnlyOpen(s, id);
    OpenComesFrom(s, After(s, Event.Watch(id, end, save)), id);
  }

  lemma RecordKeepsGood(s: State, id: string, save: Save)
    requires Good(s) && Holds(s, id, Recording)
    ensures Good(After(s, Event.Record(id, save)))
  {
    OnlyOpen(s, id);
    OpenComesFrom(s, After(s, Event.Record(id, save)), id);
  }

  lemma InterruptKeepsGood(s: State, id: string, save: Save)
    requires Good(s) && MayInterrupt(s, id)
    ensures Good(After(s, Event.Interrupt(id, save)))
  {
    OnlyOpen(s, id);
    OpenComesFrom(s, After(s, Event.Interrupt(id, save)), id);
  }

  // The steps that touch no record.
  lemma MemoryKeepsGood(s: State, e: Event)
    requires Good(s) && (e.Exit? || e.Close? || e.Restart?)
    ensures Good(After(s, e))
  {
    var t := After(s, e);
    assert forall id :: OpenRecord(t, id) <==> OpenRecord(s, id);
  }

  lemma {:induction false} RunKeepsGood(s: State, events: seq<Event>)
    requires Good(s)
    ensures Good(Run(s, events))
    decreases |events|
  {
    if events != [] {
      StepKeepsGood(s, events[0]);
      RunKeepsGood(After(s, events[0]), events[1..]);
    }
  }

  // From an empty project, through any threads and restarts: each inspection spawns at most one
  // child, never before its record exists, and two children are never alive together.
  lemma PermissionIsConsumedOnce(events: seq<Event>, id: string, other: string)
    ensures var s := Run(State(map[], multiset{}, {}, None, None, {}, false), events);
            && s.spawned[id] <= 1 && (id in s.spawned ==> id in s.records)
            && (id in s.alive && other in s.alive ==> id == other)
  {
    var s := State(map[], multiset{}, {}, None, None, {}, false);
    RunKeepsGood(s, events);
    var t := Run(s, events);
    assert id in t.alive ==> OpenRecord(t, id);
    assert other in t.alive ==> OpenRecord(t, other);
  }

  // A terminal record never changes.
  lemma {:induction false} TerminalIsFinal(s: State, events: seq<Event>, id: string)
    requires Good(s) && id in s.records && Terminal(s.records[id])
    ensures id in Run(s, events).records && Run(s, events).records[id] == s.records[id]
    decreases |events|
  {
    if events != [] {
      StepKeepsGood(s, events[0]);
      StepKeepsTerminal(s, events[0], id);
      TerminalIsFinal(After(s, events[0]), events[1..], id);
    }
  }

  lemma StepKeepsTerminal(s: State, e: Event, id: string)
    requires Good(s) && id in s.records && Terminal(s.records[id])
    ensures id in After(s, e).records && After(s, e).records[id] == s.records[id]
  {
    assert !OpenRecord(s, id);
  }

  // A record left open, with no thread that could still close it.
  predicate Abandoned(s: State, id: string) {
    OpenRecord(s, id) && s.holder.None? && id !in s.watchers && (s.child != Some(id) || id !in s.alive)
  }

  // After a crash or a lost write, no build starts any more.
  lemma {:induction false} AbandonedEndsBuilds(s: State, events: seq<Event>, id: string)
    requires Good(s) && Abandoned(s, id)
    ensures Run(s, events).records == s.records && Run(s, events).spawned == s.spawned
    decreases |events|
  {
    if events != [] {
      StepKeepsGood(s, events[0]);
      AbandonedBlocks(s, events[0], id);
      AbandonedEndsBuilds(After(s, events[0]), events[1..], id);
    }
  }

  // Between two sections under the lock, exactly an abandoned operation is shown as lost.
  lemma LostIffAbandoned(s: State, id: string)
    requires Good(s) && s.holder.None? && id in s.records
    ensures ShownState(s, id) == Lost <==> Abandoned(s, id)
    ensures ShownState(s, id) == Finalizing <==> id in s.watchers && id !in s.alive
    ensures Terminal(s.records[id]) ==> ShownState(s, id) == Known(s.records[id])
  {
  }

  // A build may be claimed exactly when it is approved and new, nothing is closing or under way,
  // and every recorded operation has ended.
  lemma ClaimIff(s: State, id: string, approved: bool)
    ensures MayClaim(s, id, approved) <==>
              && approved && id !in s.records && !s.stopping && s.holder == None
              && forall prior :: prior in s.records ==>
                   s.records[prior] in {Finished, Failed, Interrupted, FailedBefore}
  {
    forall prior | prior in s.records
      ensures Blocking(ShownState(s, prior)) <==> s.records[prior] !in {Finished, Failed, Interrupted, FailedBefore}
    {
    }
  }

  // What an ending says, in the codes of the operating system: a build whose checks ran ends with
  // 0 or 1, one that was interrupted with 130 or the signal.
  ghost predicate Describes(end: Ending, state: OpState) {
    && (state == Finished <==> end.readable && (end.code == 0 || end.code == 1))
    && (state == Interrupted <==> end.readable && (end.code == 130 || end.code == -2 || end.code == -15))
    && (state == Failed <==> !end.readable || !(end.code == 0 || end.code == 1 || end.code == 130 || end.code == -2
                                                || end.code == -15))
  }

  // Once a child's end was written, whoever waited for it, its record says how it ended for good.
  lemma EndIsRecorded(s: State, e: Event, events: seq<Event>)
    requires Good(s) && (e.Wait? || e.Watch?) && !e.save.Unsaved?
    requires e.Wait? ==> Holds(s, e.id, Waiting) && e.id !in s.alive
    requires e.Watch? ==> MayWatch(s, e.id)
    ensures var t := Run(After(s, e), events); e.id in t.records && Describes(e.end, t.records[e.id])
  {
    StepKeepsGood(s, e);
    TerminalIsFinal(After(s, e), events, e.id);
  }

  // A child that could not be spawned is recorded as failed before execution, and never runs.
  lemma FailedBeforeNeverRuns(s: State, id: string, save: Save, events: seq<Event>)
    requires Good(s) && Holds(s, id, Spawning) && !save.Unsaved?
    ensures var t := Run(After(s, Event.Spawn(id, false, save)), events);
            id in t.records && t.records[id] == FailedBefore && t.spawned[id] == 0
  {
    var failed := After(s, Event.Spawn(id, false, save));
    StepKeepsGood(s, Event.Spawn(id, false, save));
    TerminalIsFinal(failed, events, id);
    EndedIsNotSpawned(failed, events, id);
  }

  lemma {:induction false} EndedIsNotSpawned(s: State, events: seq<Event>, id: string)
    requires Good(s) && id in s.records && Terminal(s.records[id])
    ensures Run(s, events).spawned[id] == s.spawned[id]
    decreases |events|
  {
    if events != [] {
      StepKeepsGood(s, events[0]);
      StepKeepsTerminal(s, events[0], id);
      assert !OpenRecord(s, id);
      EndedIsNotSpawned(After(s, events[0]), events[1..], id);
    }
  }

  lemma AbandonedBlocks(s: State, e: Event, id: string)
    requires Good(s) && Abandoned(s, id)
    ensures var t := After(s, e); t.records == s.records && t.spawned == s.spawned && Abandoned(t, id)
  {
    assert Blocking(ShownState(s, id));
    assert forall other :: OpenRecord(s, other) ==> other == id;
  }

  // How the effects of one `run` turn out.
  datatype Choices = Choices(approved: bool, claim: Save, works: bool, refused: Save, starts: bool, running: Save,
                             end: Ending, waited: Save)

  predicate OthersKept(before: Records, after: Records, id: string) {
    && (id in before ==> id in after)
    && forall other :: other in before && other != id ==> other in after && after[other] == before[other]
  }

  // What a run that spawned, or failed to, leaves in its record when the writes succeed.
  ghost predicate Noted(x: Choices, state: OpState) {
    if !x.works then x.refused.Saved? ==> state == FailedBefore
    else if x.starts then x.running.Saved? ==> state == Running
    else x.waited.Saved? ==> Describes(x.end, state)
  }

  // One process: its memory, the journal it finds and the children around it.
  class Server {
    var records: Records
    var spawned: multiset<string>
    var alive: set<string>
    var holder: Option<Holder>
    var child: Option<string>
    var watchers: set<string>
    var stopping: bool

    ghost function View(): State
      reads this
    {
      State(records, spawned, alive, holder, child, watchers, stopping)
    }

    ghost predicate Valid()
      reads this
    {
      Good(View())
    }

    // A start, or a restart after the process died: memory is empty, journal and orphans are not.
    constructor (before: State)
      requires Good(before)
      ensures Valid() && View() == After(before, Event.Restart)
    {
      records, spawned, alive := before.records, before.spawned, before.alive;
      holder, child, watchers, stopping := None, None, {}, false;
      new;
      MemoryKeepsGood(before, Event.Restart);
    }

    // The checks of `run` and its durable claim.
    method Claim(id: string, approved: bool, save: Save)
      requires Valid()
      modifies this
      ensures Valid() && View() == AfterClaim(old(View()), id, approved, save)
    {
      ClaimKeepsGood(View(), id, approved, save);
      if !MayClaim(State(records, spawned, alive, holder, child, watchers, stopping), id, approved) || save.Unsaved? {
        return;
      }
      records := records[id := Claimed];
      if save.Saved? {
        holder := Some(Holder(id, Spawning));
      }
    }

    // Reinspection and Popen; when either fails the claim is recorded as failed before execution.
    method Spawn(id: string, works: bool, save: Save)
      requires Valid() && Holds(View(), id, Spawning)
      modifies this
      ensures Valid() && View() == AfterSpawn(old(View()), id, works, save)
    {
      SpawnKeepsGood(View(), id, works, save);
      if works {
        spawned, alive, child := spawned + multiset{id}, alive + {id}, Some(id);
        holder := Some(Holder(id, Monitoring));
      } else {
        if !save.Unsaved? {
          records := records[id := FailedBefore];
        }
        holder := None;
      }
    }

    method Monitor(id: string, starts: bool)
      requires Valid() && Holds(View(), id, Monitoring)
      modifies this
      ensures Valid() && View() == AfterMonitor(old(View()), id, starts)
    {
      MonitorKeepsGood(View(), id, starts);
      if starts {
        watchers := watchers + {id};
        holder := Some(Holder(id, Recording));
      } else {
        holder := Some(Holder(id, Waiting));
      }
    }

    method RecordRunning(id: string, save: Save)
      requires Valid() && Holds(View(), id, Recording)
      modifies this
      ensures Valid() && View() == After(old(View()), Event.Record(id, save))
    {
      RecordKeepsGood(View(), id, save);
      if !save.Unsaved? {
        records := records[id := Running];
      }
      holder := None;
    }

    // The child's end is noticed, whoever waits for it.
    method Reap(id: string)
      requires Valid()
      modifies this
      ensures Valid() && View() == After(old(View()), Event.Exit(id))
    {
      MemoryKeepsGood(View(), Event.Exit(id));
      alive := alive - {id};
    }

    // `watch` called by `run` itself: the child is reaped, then its end is recorded.
    method WaitHere(id: string, end: Ending, save: Save)
      requires Valid() && Holds(View(), id, Waiting)
      modifies this
      ensures Valid() && View() == After(After(old(View()), Event.Exit(id)), Event.Wait(id, end, save))
    {
      Reap(id);
      WaitKeepsGood(View(), id, end, save);
      if !save.Unsaved? {
        records := records[id := Ended(end)];
      }
      holder := None;
    }

    // After the spawn: a monitor and the running state, or the child's end.
    method Supervise(id: string, x: Choices)
      requires Valid() && Holds(View(), id, Monitoring)
      modifies this
      ensures Valid() && holder.None? && spawned == old(spawned) && OthersKept(old(records), records, id)
      ensures x.works ==> id in records && Noted(x, records[id])
    {
      Monitor(id, x.starts);
      if x.starts {
        RecordRunning(id, x.running);
      } else {
        WaitHere(id, x.end, x.waited);
      }
    }

    // After the claim: at most one child.
    method Execute(id: string, x: Choices)
      requires Valid() && Holds(View(), id, Spawning)
      modifies this
      ensures Valid() && holder.None? && OthersKept(old(records), records, id)
      ensures spawned == if x.works then old(spawned) + multiset{id} else old(spawned)
      ensures id in records && Noted(x, records[id])
    {
      Spawn(id, x.works, x.refused);
      if x.works {
        Supervise(id, x);
      }
    }

    // `run`: a recorded ID runs nothing; a new one is claimed, then spawned at most once.
    method RunOperation(id: string, x: Choices)
      requires Valid() && holder.None?
      modifies this
      ensures Valid() && holder.None? && OthersKept(old(records), records, id)
      ensures old(id in records) ==> View() == old(View())
      ensures spawned == if MayClaim(old(View()), id, x.approved) && x.claim.Saved? && x.works
                         then old(spawned) + multiset{id} else old(spawned)
      ensures spawned != old(spawned) ==> id in records
      ensures MayClaim(old(View()), id, x.approved) && x.claim.Saved? ==> id in records && Noted(x, records[id])
    {
      if id in records {
        return;
      }
      Claim(id, x.approved, x.claim);
      if holder.Some? {
        Execute(id, x);
      }
    }

    // A monitor thread after its child was reaped.
    method Watch(id: string, end: Ending, save: Save)
      requires Valid() && MayWatch(View(), id)
      modifies this
      ensures Valid() && View() == After(old(View()), Event.Watch(id, end, save))
    {
      WatchKeepsGood(View(), id, end, save);
      if !save.Unsaved? {
        records := records[id := Ended(end)];
      }
      watchers := watchers - {id};
    }

    method Interrupt(id: string, save: Save)
      requires Valid()
      modifies this
      ensures Valid() && View() == After(old(View()), Event.Interrupt(id, save))
      ensures old(child) == Some(id) && id in old(alive) && old(holder).None? && id in old(records) && save.Saved? ==>
                records == old(records)[id := InterruptionRequested]
    {
      if holder.None? && child == Some(id) && id in alive && id in records {
        InterruptKeepsGood(View(), id, save);
        if !save.Unsaved? {
          records := records[id := InterruptionRequested];
        }
      }
    }

    method Close()
      requires Valid() && holder.None?
      modifies this
      ensures Valid() && View() == After(old(View()), Event.Close)
    {
      MemoryKeepsGood(View(), Event.Close);
      stopping := true;
    }
  }
}
