/**
 The live conversation: the canonical transcript, the provider-facing active history, the checklist, the
 session they are logged to, and the compactions that replace the active history.

 The results of this module hold in every run, however compactions, appends and session switches race.
 */
module Conversation {
  import opened Wrappers
  import opened SessionLog

  type SessionId = nat

  type FlightId = nat

  datatype SessionFile = SessionFile(model: Option<string>, lines: seq<Line>)

  datatype Current = Current(id: SessionId, nextOrdinal: nat)

  /**
   `ephemeral` counts the retry entries at the end of `active` that are never logged; `slot` is the
   compaction that is announced as running.
   */
  datatype State = State(
    history: seq<Entry>,
    active: seq<Entry>,
    ephemeral: nat,
    todos: seq<Todo>,
    current: Option<Current>,
    poisoned: bool,
    files: map<SessionId, SessionFile>,
    slot: Option<FlightId>)

  /** How the file system behaves during one append, and what a newly created file is given. */
  datatype Io = Io(created: bool, written: bool, freshId: SessionId, model: Option<string>)

  // ---------------------------------------------------------------- appends

  predicate Attached(s: State) {
    s.current.Some? ==> s.current.value.id in s.files
  }

  /** The session an append goes to, which the first append of a conversation creates. */
  function Opened(s: State, io: Io): State {
    if s.current.Some? then s
    else s.(current := Some(Current(io.freshId, 1)), files := s.files[io.freshId := SessionFile(io.model, [])])
  }

  predicate AppendFails(s: State, io: Io) {
    !s.poisoned && ((s.current.None? && !io.created) || !io.written)
  }

  /** Appends after a failure are silently skipped. */
  function Appended(s: State, record: Record, io: Io): State
    requires Attached(s)
  {
    if s.poisoned then s
    else if s.current.None? && !io.created then s.(poisoned := true)
    else
      var started := Opened(s, io);
      if !io.written then started.(poisoned := true)
      else
        var Current(id, ordinal) := started.current.value;
        var file := started.files[id];
        started.(files := started.files[id := file.(lines := file.lines + [Line(ordinal, Some(record))])],
                current := Some(Current(id, ordinal + 1)))
  }

  function Pushed(s: State, entry: Entry, io: Io): State
    requires Attached(s)
  {
    Appended(s.(history := s.history + [entry], active := s.active + [entry]), HistoryEntry(entry), io)
  }

  function WithTodos(s: State, todos: seq<Todo>, io: Io): State
    requires Attached(s)
  {
    Appended(s.(todos := todos), TodoListUpdate(todos), io)
  }

  /** Selection changes are logged only once the conversation has a session. */
  function WithSelection(s: State, record: Record, io: Io): State
    requires Attached(s)
  {
    if s.current.None? then s else Appended(s, record, io)
  }

  function EphemeralPushed(s: State, call: Entry, result: Entry): State {
    s.(active := s.active + [call, result], ephemeral := 2)
  }

  function EphemeralDropped(s: State): State {
    s.(active := if s.ephemeral <= |s.active| then s.active[..|s.active| - s.ephemeral] else [], ephemeral := 0)
  }

  // ---------------------------------------------------------------- compaction

  /** What a compaction intends to log and to install. */
  datatype Plan = Plan(checkpoint: Checkpoint, projected: seq<Entry>)

  /** `log` is the session that the checkpoint went to; a poisoned conversation skips the append. */
  datatype Stage =
    | Waiting
    | Summarizing
    | Measured(plan: Plan)
    | Logged(plan: Plan, log: Option<SessionId>)
    | Ended

  /** One compaction between its snapshot and its end. */
  datatype Flight = Flight(trigger: string, snapshot: seq<Entry>, firstKept: nat, before: nat, stage: Stage)

  /** Nothing is compacted unless something precedes the preserved tail. */
  function SnapshotOf(active: seq<Entry>, trigger: string, estimate: seq<Entry> -> nat): (flight: Option<Flight>)
    ensures flight.Some? ==> flight.value.firstKept <= |flight.value.snapshot|
  {
    var start := PreservedTailStart(active);
    if start.None? || start.value == 0 then None
    else Some(Flight(trigger, active, start.value, estimate(active), Waiting))
  }

  /** The canonical index of the first kept entry, by a subtraction that stops at zero. */
  function FirstKeptIndex(canonical: nat, snapshot: nat, firstKept: nat): nat
    requires firstKept <= snapshot
  {
    if canonical < snapshot - firstKept then 0 else canonical - (snapshot - firstKept)
  }

  function Compacted(flight: Flight, summary: string): seq<Entry>
    requires flight.firstKept <= |flight.snapshot|
  {
    [SummaryEntry(summary)] + flight.snapshot[flight.firstKept..]
  }

  function PlanOf(history: seq<Entry>, flight: Flight, summary: string, estimate: seq<Entry> -> nat): Plan
    requires flight.firstKept <= |flight.snapshot|
  {
    var projected := Compacted(flight, summary);
    Plan(Checkpoint(summary, FirstKeptIndex(|history|, |flight.snapshot|, flight.firstKept),
                    flight.before, estimate(projected), flight.trigger, |history|),
         projected)
  }

  /** No plan without a summary, or when the result would not be smaller. */
  function MeasuredPlan(history: seq<Entry>, flight: Flight, summary: Option<string>, estimate: seq<Entry> -> nat): Option<Plan>
    requires flight.firstKept <= |flight.snapshot|
  {
    if summary.None? || estimate(Compacted(flight, summary.value)) >= flight.before then None
    else Some(PlanOf(history, flight, summary.value, estimate))
  }

  /** What an undisturbed compaction comes to, once it holds the slot. */
  function Persisted(s: State, flight: Flight, summary: Option<string>, estimate: seq<Entry> -> nat, io: Io): State
    requires Attached(s) && flight.firstKept <= |flight.snapshot|
  {
    var plan := MeasuredPlan(s.history, flight, summary, estimate);
    if plan.None? then s
    else if AppendFails(s, io) then Appended(s, Compaction(plan.value.checkpoint), io)
    else Appended(s, Compaction(plan.value.checkpoint), io).(active := plan.value.projected)
  }

  // ---------------------------------------------------------------- session switches

  /** A running turn loop keeps its own count of retry entries across a switch. */
  function Restarted(s: State): State {
    s.(history := [], active := [], todos := [], current := None, poisoned := false)
  }

  function LoadedOf(files: map<SessionId, SessionFile>, id: SessionId): Loaded
    requires id in files
  {
    Replay(files[id].model, files[id].lines)
  }

  /** Attaches a session that was loaded before. */
  function AttachedTo(s: State, id: SessionId, loaded: Loaded): State {
    s.(history := loaded.history, active := loaded.active, todos := loaded.todos,
       current := Some(Current(id, loaded.nextOrdinal)), poisoned := false)
  }

  function Resumed(s: State, id: SessionId): State
    requires id in s.files
  {
    AttachedTo(s, id, LoadedOf(s.files, id))
  }

  // ---------------------------------------------------------------- the conversation object

  class CoreState {
    var history: seq<Entry>
    var active: seq<Entry>
    var ephemeral: nat
    var todos: seq<Todo>
    var current: Option<Current>
    var poisoned: bool
    var files: map<SessionId, SessionFile>
    var slot: Option<FlightId>

    ghost function View(): State
      reads this
    {
      State(history, active, ephemeral, todos, current, poisoned, files, slot)
    }

    constructor (files: map<SessionId, SessionFile>)
      ensures View() == State([], [], 0, [], None, false, files, None)
    {
      history, active, ephemeral, todos := [], [], 0, [];
      current, poisoned, this.files, slot := None, false, files, None;
    }

    method Append(record: Record, io: Io) returns (ok: bool)
      requires Attached(View())
      modifies this`current, this`poisoned, this`files
      ensures View() == Appended(old(View()), record, io)
      ensures ok <==> !AppendFails(old(View()), io)
    {
      if poisoned {
        return true;
      }
      if current.None? {
        if !io.created {
          poisoned := true;
          return false;
        }
        files := files[io.freshId := SessionFile(io.model, [])];
        current := Some(Current(io.freshId, 1));
      }
      if !io.written {
        poisoned := true;
        return false;
      }
      var session := current.value;
      var file := files[session.id];
      files := files[session.id := file.(lines := file.lines + [Line(session.nextOrdinal, Some(record))])];
      current := Some(session.(nextOrdinal := session.nextOrdinal + 1));
      ok := true;
    }

    method PushMainHistory(entry: Entry, io: Io)
      requires Attached(View())
      modifies this
      ensures View() == Pushed(old(View()), entry, io)
    {
      history := history + [entry];
      active := active + [entry];
      var _ := Append(HistoryEntry(entry), io);
    }

    method SetTodos(replacement: seq<Todo>, io: Io)
      requires Attached(View())
      modifies this
      ensures View() == WithTodos(old(View()), replacement, io)
    {
      todos := replacement;
      var _ := Append(TodoListUpdate(replacement), io);
    }

    method RemoveEphemeralHistory()
      modifies this`active, this`ephemeral
      ensures View() == EphemeralDropped(old(View()))
    {
      if ephemeral == 0 {
        assert active[..|active|] == active;
        return;
      }
      var retained := if ephemeral <= |active| then |active| - ephemeral else 0;
      active := active[..retained];
      ephemeral := 0;
    }

    /** Attachments go from the active history only; canonical transcript and log keep theirs. */
    method ClearMainHistoryImages()
      modifies this`active
      ensures View() == old(View()).(active := Erased(old(active)))
    {
      var i := 0;
      while i < |active|
        invariant 0 <= i <= |active| == |old(active)|
        invariant forall j | 0 <= j < i :: active[j] == WithoutImages(old(active)[j])
        invariant forall j | i <= j < |active| :: active[j] == old(active)[j]
      {
        active := active[i := WithoutImages(active[i])];
        i := i + 1;
      }
      assert active == Erased(old(active));
    }

    /** Fails when another compaction is announced as running. */
    method StartCompaction(id: FlightId) returns (ok: bool)
      modifies this`slot
      ensures ok <==> old(slot).None?
      ensures slot == if ok then Some(id) else old(slot)
    {
      ok := slot.None?;
      if ok {
        slot := Some(id);
      }
    }

    method FinishCompaction()
      modifies this`slot
      ensures slot == None
    {
      slot := None;
    }

    /** Canonical transcript, log and active history are locked one after the other. */
    method GenerateAndPersistCompaction(flight: Flight, summary: Option<string>, estimate: seq<Entry> -> nat, io: Io)
      returns (checkpoint: Option<Checkpoint>)
      requires Attached(View()) && flight.firstKept <= |flight.snapshot|
      modifies this
      ensures View() == Persisted(old(View()), flight, summary, estimate, io)
      ensures
        checkpoint.Some? <==>
          && summary.Some? && !AppendFails(old(View()), io)
          && estimate([SummaryEntry(summary.value)] + flight.snapshot[flight.firstKept..]) < flight.before
      ensures checkpoint.None? ==> active == old(active)
      ensures
        checkpoint.Some? ==>
          && checkpoint.value.summary == summary.value
          && active == [SummaryEntry(summary.value)] + flight.snapshot[flight.firstKept..]
          && checkpoint.value.tokensAfter == estimate(active) < checkpoint.value.tokensBefore == flight.before
    {
      if summary.None? {
        return None;
      }
      var canonical := history;
      var kept := |flight.snapshot| - flight.firstKept;
      var firstKept := if |canonical| < kept then 0 else |canonical| - kept;
      var projected := [SummaryEntry(summary.value)] + flight.snapshot[flight.firstKept..];
      var after := estimate(projected);
      if after >= flight.before {
        return None;
      }
      var measured := Checkpoint(summary.value, firstKept, flight.before, after, flight.trigger, |canonical|);
      var ok := Append(Compaction(measured), io);
      if !ok {
        return None;
      }
      active := projected;
      checkpoint := Some(measured);
    }

    /** A whole compaction, undisturbed: nothing happens without something to compact and a free slot. */
    method CompactHistory(id: FlightId, trigger: string, summary: Option<string>, estimate: seq<Entry> -> nat, io: Io)
      returns (checkpoint: Option<Checkpoint>)
      requires Attached(View())
      modifies this
      ensures
        var flight := SnapshotOf(old(active), trigger, estimate);
        View() == if flight.None? || old(slot).Some? then old(View())
                  else Persisted(old(View()), flight.value, summary, estimate, io).(slot := None)
      ensures checkpoint.None? ==> active == old(active)
      ensures
        checkpoint.Some? ==>
          checkpoint.value.tokensAfter == estimate(active) < checkpoint.value.tokensBefore == estimate(old(active))
    {
      var flight := SnapshotOf(active, trigger, estimate);
      if flight.None? {
        return None;
      }
      var started := StartCompaction(id);
      if !started {
        return None;
      }
      checkpoint := GenerateAndPersistCompaction(flight.value, summary, estimate, io);
      FinishCompaction();
    }

    method NewSession()
      modifies this
      ensures View() == Restarted(old(View()))
    {
      history, active, todos := [], [], [];
      current, poisoned := None, false;
    }

    method ResumeSession(id: SessionId)
      requires id in files
      modifies this
      ensures View() == Resumed(old(View()), id)
    {
      var loaded := LoadPath(files[id].model, files[id].lines);
      history, active, todos := loaded.history, loaded.active, loaded.todos;
      current, poisoned := Some(Current(id, loaded.nextOrdinal)), false;
    }
  }

  // ---------------------------------------------------------------- runs

  /** The state, the compactions under way, and the active history each of them was begun on. */
  datatype Live = Live(state: State, flights: map<FlightId, Flight>, begunOn: map<FlightId, seq<Entry>>)

  /** `Exit` ends the process, at any point between two steps; the next one starts on the same files. */
  datatype Step =
    | Push(entry: Entry, io: Io)
    | PushEphemeral(call: Entry, result: Entry)
    | DropEphemeral
    | ClearImages
    | SetTodos(todos: seq<Todo>, io: Io)
    | Select(record: Record, io: Io)
    | TakeSnapshot(id: FlightId, trigger: string, estimate: seq<Entry> -> nat)
    | TakeSlot(id: FlightId)
    | Measure(id: FlightId, summary: Option<string>, estimate: seq<Entry> -> nat)
    | LogCheckpoint(id: FlightId, io: Io)
    | Install(id: FlightId)
    | Release(id: FlightId)
    | NewSession
    | Resume(session: SessionId)
    | Exit

  predicate Sound(flight: Flight) {
    flight.firstKept <= |flight.snapshot|
  }

  predicate Fresh(s: State, io: Io) {
    io.freshId !in s.files
  }

  /** The turn loop drops its retry entries before it appends anything else. */
  predicate Enabled(s: Live, step: Step) {
    && Attached(s.state)
    && match step
       case Push(_, io) => s.state.ephemeral == 0 && Fresh(s.state, io)
       case PushEphemeral(call, result) => s.state.ephemeral == 0 && call.role == Assistant && result.role == Role.Tool
       case SetTodos(_, io) => Fresh(s.state, io)
       case Select(record, io) => Fresh(s.state, io) && (record.ModelChange? || record.ThinkingChange?)
       case TakeSnapshot(id, _, _) => id !in s.flights
       case TakeSlot(id) => id in s.flights && s.flights[id].stage.Waiting?
       case Measure(id, _, _) => id in s.flights && Sound(s.flights[id]) && s.flights[id].stage.Summarizing?
       case LogCheckpoint(id, io) => id in s.flights && s.flights[id].stage.Measured? && Fresh(s.state, io)
       case Install(id) => id in s.flights && s.flights[id].stage.Logged?
       case Release(id) => id in s.flights && s.flights[id].stage.Ended?
       case Resume(session) => session in s.state.files
       case _ => true
  }

  function WithStage(s: Live, id: FlightId, stage: Stage): Live
    requires id in s.flights
  {
    s.(flights := s.flights[id := s.flights[id].(stage := stage)])
  }

  /** A checkpoint that cannot be logged ends its compaction. */
  function CheckpointLogged(s: Live, id: FlightId, io: Io): Live
    requires Attached(s.state) && id in s.flights && s.flights[id].stage.Measured?
  {
    var plan := s.flights[id].stage.plan;
    var state := Appended(s.state, Compaction(plan.checkpoint), io);
    var stage :=
      if AppendFails(s.state, io) then Ended
      else Logged(plan, if s.state.poisoned || state.current.None? then None else Some(state.current.value.id));
    WithStage(s, id, stage).(state := state)
  }

  function Apply(s: Live, step: Step): Live
    requires Enabled(s, step)
  {
    match step
    case Push(entry, io) => s.(state := Pushed(s.state, entry, io))
    case PushEphemeral(call, result) => s.(state := EphemeralPushed(s.state, call, result))
    case DropEphemeral => s.(state := EphemeralDropped(s.state))
    case ClearImages => s.(state := s.state.(active := Erased(s.state.active)))
    case SetTodos(todos, io) => s.(state := WithTodos(s.state, todos, io))
    case Select(record, io) => s.(state := WithSelection(s.state, record, io))
    case TakeSnapshot(id, trigger, estimate) =>
      var flight := SnapshotOf(s.state.active, trigger, estimate);
      if flight.None? then s
      else s.(flights := s.flights[id := flight.value], begunOn := s.begunOn[id := s.state.active])
    case TakeSlot(id) =>
      if s.state.slot.Some? then s.(flights := s.flights - {id})
      else WithStage(s, id, Summarizing).(state := s.state.(slot := Some(id)))
    case Measure(id, summary, estimate) =>
      var plan := MeasuredPlan(s.state.history, s.flights[id], summary, estimate);
      WithStage(s, id, if plan.None? then Ended else Measured(plan.value))
    case LogCheckpoint(id, io) => CheckpointLogged(s, id, io)
    case Install(id) =>
      var plan := s.flights[id].stage.plan;
      WithStage(s, id, Ended).(state := s.state.(active := plan.projected))
    case Release(id) => s.(state := s.state.(slot := None), flights := s.flights - {id})
    case NewSession => s.(state := Restarted(s.state))
    case Resume(session) => s.(state := Resumed(s.state, session))
    case Exit => Live(Restarted(s.state).(ephemeral := 0, slot := None), map[], map[])
  }

  ghost predicate Runs(s: Live, steps: seq<Step>, t: Live)
    decreases steps
  {
    if steps == [] then s == t
    else Enabled(s, steps[0]) && Runs(Apply(s, steps[0]), steps[1..], t)
  }

  const Initial: Live := Live(State([], [], 0, [], None, false, map[], None), map[], map[])

  lemma {:induction false} RunSnoc(s: Live, steps: seq<Step>, t: Live, step: Step)
    requires Runs(s, steps, t) && Enabled(t, step)
    ensures Runs(s, steps + [step], Apply(t, step))
    decreases steps
  {
    hide Enabled, Apply;
    if steps == [] {
      assert [step][1..] == [];
    } else {
      assert (steps + [step])[1..] == steps[1..] + [step];
      RunSnoc(Apply(s, steps[0]), steps[1..], t, step);
    }
  }

  lemma {:induction false} RunsCompose(s: Live, first: seq<Step>, t: Live, second: seq<Step>, u: Live)
    requires Runs(s, first, t) && Runs(t, second, u)
    ensures Runs(s, first + second, u)
    decreases first
  {
    hide Enabled, Apply;
    if first == [] {
      assert first + second == second;
    } else {
      assert (first + second)[1..] == first[1..] + second;
      RunsCompose(Apply(s, first[0]), first[1..], t, second, u);
    }
  }

  // ---------------------------------------------------------------- invariant of every run

  ghost predicate Numbered(lines: seq<Line>) {
    forall i | 0 <= i < |lines| :: lines[i].Line? && lines[i].ordinal == i + 1
  }

  ghost predicate FileInv(files: map<SessionId, SessionFile>, id: SessionId) {
    id in files ==> Numbered(files[id].lines) && LoadedOf(files, id).nextOrdinal == |files[id].lines| + 1
  }

  ghost predicate FilesInv(files: map<SessionId, SessionFile>) {
    forall id: SessionId :: FileInv(files, id)
  }

  /** What the log of the attached session replays to; a session about to be created replays to nothing. */
  function LogOf(s: State): Loaded
    requires Attached(s)
  {
    if s.current.Some? then LoadedOf(s.files, s.current.value.id) else EmptySession(None)
  }

  /** An unpoisoned log replays to the transcript, the checklist and the numbering that are live. */
  ghost predicate Synced(s: State) {
    && Attached(s)
    && LogOf(s).history == s.history && LogOf(s).todos == s.todos
    && (s.current.Some? ==> LogOf(s).nextOrdinal == s.current.value.nextOrdinal)
  }

  /** A log that is only ever extended. */
  ghost predicate Extends(before: map<SessionId, SessionFile>, files: map<SessionId, SessionFile>, id: SessionId) {
    id in before ==> id in files && forall c <- LoadedOf(before, id).compactions :: c in LoadedOf(files, id).compactions
  }

  ghost predicate FlightInv(files: map<SessionId, SessionFile>, flight: Flight) {
    && PreservedTailStart(flight.snapshot) == Some(flight.firstKept) && 1 <= flight.firstKept
    && (flight.stage.Measured? || flight.stage.Logged? ==>
          flight.stage.plan.projected == Compacted(flight, flight.stage.plan.checkpoint.summary))
    && (flight.stage.Logged? && flight.stage.log.Some? ==>
          && flight.stage.log.value in files
          && flight.stage.plan.checkpoint in LoadedOf(files, flight.stage.log.value).compactions)
  }

  ghost predicate SlotInv(s: Live) {
    && (s.state.slot.Some? ==> s.state.slot.value in s.flights)
    && forall id <- s.flights :: s.flights[id].stage.Waiting? <==> s.state.slot != Some(id)
  }

  ghost predicate Inv(s: Live) {
    && Attached(s.state) && FilesInv(s.state.files)
    && (!s.state.poisoned ==> Synced(s.state))
    && SlotInv(s)
    && forall id <- s.flights :: FlightInv(s.state.files, s.flights[id])
  }

  lemma NumberedGrows(lines: seq<Line>, record: Record)
    requires Numbered(lines)
    ensures Numbered(lines + [Line(|lines| + 1, Some(record))]) && Unreadable !in lines
  {
  }

  /** A successful append replays as one more record, with the next ordinal. */
  lemma AppendedReplays(s: State, record: Record, io: Io)
    requires Attached(s) && !s.poisoned && !AppendFails(s, io)
    requires s.current.Some? ==>
               FileInv(s.files, s.current.value.id) && s.current.value.nextOrdinal == LogOf(s).nextOrdinal
    ensures
      var t := Appended(s, record, io);
      var logged := if s.current.Some? then LogOf(s) else EmptySession(io.model);
      && Attached(t) && t.current.Some? && !t.poisoned
      && LogOf(t) == Replayed(logged.(nextOrdinal := logged.nextOrdinal + 1), record)
      && t.current.value.nextOrdinal == LogOf(t).nextOrdinal
      && FileInv(t.files, t.current.value.id)
  {
    var base := Opened(s, io);
    var file := base.files[base.current.value.id];
    NumberedGrows(file.lines, record);
    ReplaySnoc(file.model, file.lines, Line(base.current.value.nextOrdinal, Some(record)));
  }

  lemma ReplayedKeepsCheckpoints(loaded: Loaded, record: Record)
    ensures forall c <- loaded.compactions :: c in Replayed(loaded, record).compactions
  {
  }

  /** The append of a step, in a state that differs from the invariant one only outside the log. */
  lemma AppendKeepsFiles(s: State, record: Record, io: Io)
    requires Attached(s) && Fresh(s, io) && FilesInv(s.files)
    requires !s.poisoned && s.current.Some? ==> s.current.value.nextOrdinal == LogOf(s).nextOrdinal
    ensures FilesInv(Appended(s, record, io).files) && Attached(Appended(s, record, io))
    ensures forall id: SessionId :: Extends(s.files, Appended(s, record, io).files, id)
  {
    hide Replay;
    var t := Appended(s, record, io);
    forall id: SessionId ensures FileInv(t.files, id) && Extends(s.files, t.files, id) {
      assert FileInv(s.files, id);
      if s.current.Some? {
        assert FileInv(s.files, s.current.value.id);
      }
      if !s.poisoned && !AppendFails(s, io) {
        AppendedReplays(s, record, io);
        if s.current.Some? {
          ReplayedKeepsCheckpoints(LogOf(s).(nextOrdinal := LogOf(s).nextOrdinal + 1), record);
        }
      }
      if id in t.files && id !in s.files && t.files[id] == SessionFile(io.model, []) {
        EmptyFileReplays(io.model);
      }
    }
  }

  lemma EmptyFileReplays(model: Option<string>)
    ensures Replay(model, []) == EmptySession(model)
  {
  }

  /** The record accounts for what the step changed outside the log. */
  lemma AppendKeepsSynced(s: State, base: State, record: Record, io: Io)
    requires FilesInv(s.files) && Attached(s) && (!s.poisoned ==> Synced(s))
    requires base.files == s.files && base.current == s.current && base.poisoned == s.poisoned
    requires Replayed(LogOf(s).(history := s.history, todos := s.todos), record).history == base.history
    requires Replayed(LogOf(s).(history := s.history, todos := s.todos), record).todos == base.todos
    ensures !Appended(base, record, io).poisoned ==> Synced(Appended(base, record, io))
  {
    hide Replay;
    if !Appended(base, record, io).poisoned {
      if s.current.Some? {
        assert FileInv(s.files, s.current.value.id);
      }
      AppendedReplays(base, record, io);
    }
  }

  lemma FlightsSurviveAppend(
      before: map<SessionId, SessionFile>, files: map<SessionId, SessionFile>, flights: map<FlightId, Flight>)
    requires forall id <- flights :: FlightInv(before, flights[id])
    requires forall id: SessionId :: Extends(before, files, id)
    ensures forall id <- flights :: FlightInv(files, flights[id])
  {
    hide Replay, PreservedTailStart;
    forall id | id in flights ensures FlightInv(files, flights[id]) {
      var stage := flights[id].stage;
      if stage.Logged? && stage.log.Some? {
        assert Extends(before, files, stage.log.value);
      }
    }
  }

  /** A step that appends `record`, after changing only histories and checklist. */
  lemma AppendKeepsInv(s: Live, base: State, record: Record, io: Io)
    requires Inv(s) && Fresh(s.state, io)
    requires base.files == s.state.files && base.current == s.state.current && base.poisoned == s.state.poisoned
    requires base.slot == s.state.slot
    requires Replayed(LogOf(s.state).(history := s.state.history, todos := s.state.todos), record).history == base.history
    requires Replayed(LogOf(s.state).(history := s.state.history, todos := s.state.todos), record).todos == base.todos
    ensures Inv(s.(state := Appended(base, record, io)))
    ensures forall id: SessionId :: Extends(s.state.files, Appended(base, record, io).files, id)
  {
    hide Replay, PreservedTailStart;
    AppendKeepsFiles(base, record, io);
    AppendKeepsSynced(s.state, base, record, io);
    FlightsSurviveAppend(s.state.files, Appended(base, record, io).files, s.flights);
  }

  lemma AppendingStepKeepsInv(s: Live, step: Step)
    requires Inv(s) && Enabled(s, step) && (step.Push? || step.SetTodos? || step.Select?)
    ensures Inv(Apply(s, step))
  {
    hide Inv, Replay;
    InvParts(s);
    match step
    case Push(entry, io) =>
      var base := s.state.(history := s.state.history + [entry], active := s.state.active + [entry]);
      AppendKeepsInv(s, base, HistoryEntry(entry), io);
    case SetTodos(todos, io) => AppendKeepsInv(s, s.state.(todos := todos), TodoListUpdate(todos), io);
    case Select(record, io) =>
      if s.state.current.Some? {
        AppendKeepsInv(s, s.state, record, io);
      }
  }

  lemma InvParts(s: Live)
    requires Inv(s)
    ensures Attached(s.state) && (!s.state.poisoned ==> Synced(s.state))
  {
  }

  /** The checkpoint that was just logged is in the log of the session it went to. */
  lemma LoggedCheckpointIsThere(s: Live, id: FlightId, io: Io)
    requires Inv(s) && Enabled(s, LogCheckpoint(id, io))
    ensures FlightInv(CheckpointLogged(s, id, io).state.files, CheckpointLogged(s, id, io).flights[id])
  {
    hide Replay, PreservedTailStart;
    var plan := s.flights[id].stage.plan;
    assert FlightInv(s.state.files, s.flights[id]);
    if !s.state.poisoned && !AppendFails(s.state, io) {
      if s.state.current.Some? {
        assert FileInv(s.state.files, s.state.current.value.id);
      }
      AppendedReplays(s.state, Compaction(plan.checkpoint), io);
    }
  }

  lemma LogKeepsInv(s: Live, id: FlightId, io: Io)
    requires Inv(s) && Enabled(s, LogCheckpoint(id, io))
    ensures Inv(CheckpointLogged(s, id, io))
  {
    hide Replay, PreservedTailStart, Replayed;
    var plan := s.flights[id].stage.plan;
    CheckpointKeepsTranscript(LogOf(s.state).(history := s.state.history, todos := s.state.todos), plan.checkpoint);
    AppendKeepsInv(s, s.state, Compaction(plan.checkpoint), io);
    LoggedCheckpointIsThere(s, id, io);
    var t := CheckpointLogged(s, id, io);
    assert s.(state := t.state).flights == s.flights;
  }

  lemma CheckpointKeepsTranscript(loaded: Loaded, checkpoint: Checkpoint)
    ensures Replayed(loaded, Compaction(checkpoint)).history == loaded.history
    ensures Replayed(loaded, Compaction(checkpoint)).todos == loaded.todos
  {
  }

  lemma QuietStepKeepsInv(s: Live, step: Step)
    requires Inv(s) && Enabled(s, step)
    requires step.PushEphemeral? || step.DropEphemeral? || step.ClearImages? || step.NewSession? || step.Exit?
    ensures Inv(Apply(s, step))
  {
    hide Replay, PreservedTailStart;
  }

  lemma ResumeKeepsInv(s: Live, session: SessionId)
    requires Inv(s) && Enabled(s, Resume(session))
    ensures Inv(Apply(s, Resume(session)))
  {
    hide Replay, PreservedTailStart;
    assert FileInv(s.state.files, session);
  }

  lemma CompactionStepKeepsFlights(s: Live, step: Step, id: FlightId)
    requires Inv(s) && Enabled(s, step)
    requires step.TakeSnapshot? || step.TakeSlot? || step.Measure? || step.Install? || step.Release?
    requires id in Apply(s, step).flights
    ensures FlightInv(s.state.files, Apply(s, step).flights[id])
  {
    hide Replay, PreservedTailStart, LastUser;
    if id in s.flights {
      assert FlightInv(s.state.files, s.flights[id]);
    }
  }

  lemma CompactionStepKeepsSlot(s: Live, step: Step)
    requires SlotInv(s) && Enabled(s, step)
    requires step.TakeSnapshot? || step.TakeSlot? || step.Measure? || step.Install? || step.Release?
    ensures SlotInv(Apply(s, step))
  {
    hide SnapshotOf, MeasuredPlan;
    if step.TakeSnapshot? {
      NewFlightWaits(s.state.active, step.trigger, step.estimate);
    }
  }

  lemma NewFlightWaits(active: seq<Entry>, trigger: string, estimate: seq<Entry> -> nat)
    ensures SnapshotOf(active, trigger, estimate).Some? ==> SnapshotOf(active, trigger, estimate).value.stage.Waiting?
  {
  }

  lemma CompactionStepKeepsInv(s: Live, step: Step)
    requires Inv(s) && Enabled(s, step)
    requires step.TakeSnapshot? || step.TakeSlot? || step.Measure? || step.Install? || step.Release?
    ensures Inv(Apply(s, step))
  {
    hide Replay, SlotInv, FlightInv, FilesInv, SnapshotOf, MeasuredPlan;
    var t := Apply(s, step);
    SlotPart(s);
    CompactionStepKeepsSlot(s, step);
    forall id | id in t.flights ensures FlightInv(t.state.files, t.flights[id]) {
      CompactionStepKeepsFlights(s, step, id);
    }
  }

  lemma SlotPart(s: Live)
    requires Inv(s)
    ensures SlotInv(s)
  {
  }

  lemma ApplyKeepsInv(s: Live, step: Step)
    requires Inv(s) && Enabled(s, step)
    ensures Inv(Apply(s, step))
  {
    hide Inv;
    match step
    case Push(_, _) => AppendingStepKeepsInv(s, step);
    case SetTodos(_, _) => AppendingStepKeepsInv(s, step);
    case Select(_, _) => AppendingStepKeepsInv(s, step);
    case PushEphemeral(_, _) => QuietStepKeepsInv(s, step);
    case DropEphemeral => QuietStepKeepsInv(s, step);
    case ClearImages => QuietStepKeepsInv(s, step);
    case NewSession => QuietStepKeepsInv(s, step);
    case Exit => QuietStepKeepsInv(s, step);
    case Resume(session) => ResumeKeepsInv(s, session);
    case LogCheckpoint(id, io) => LogKeepsInv(s, id, io);
    case TakeSnapshot(_, _, _) => CompactionStepKeepsInv(s, step);
    case TakeSlot(_) => CompactionStepKeepsInv(s, step);
    case Measure(_, _, _) => CompactionStepKeepsInv(s, step);
    case Install(_) => CompactionStepKeepsInv(s, step);
    case Release(_) => CompactionStepKeepsInv(s, step);
  }

  lemma {:induction false} RunKeepsInv(s: Live, steps: seq<Step>, t: Live)
    requires Inv(s) && Runs(s, steps, t)
    ensures Inv(t)
    decreases steps
  {
    hide Inv, Enabled, Apply;
    if steps != [] {
      ApplyKeepsInv(s, steps[0]);
      RunKeepsInv(Apply(s, steps[0]), steps[1..], t);
    }
  }

  lemma ReachableInv(steps: seq<Step>, t: Live)
    requires Runs(Initial, steps, t)
    ensures Inv(t)
  {
    RunKeepsInv(Initial, steps, t);
  }

  // ---------------------------------------------------------------- results over all runs

  /**
   Replay refines the transcript: after every run, and as long as no write has failed, the log of the
   attached session replays to the canonical transcript and the checklist exactly and continues the
   numbering; without a session both are empty.
   */
  lemma ReplayRefinesTranscript(steps: seq<Step>, t: Live)
    requires Runs(Initial, steps, t) && !t.state.poisoned
    ensures t.state.current.None? ==> t.state.history == [] && t.state.todos == []
    ensures
      t.state.current.Some? ==>
        && t.state.current.value.id in t.state.files
        && var loaded := LoadedOf(t.state.files, t.state.current.value.id);
           && loaded.history == t.state.history
           && loaded.todos == t.state.todos
           && loaded.nextOrdinal == t.state.current.value.nextOrdinal
  {
    hide Replay;
    ReachableInv(steps, t);
  }

  /** Records are numbered 1, 2, 3, … across process restarts and resumptions, in every run. */
  lemma OrdinalsAreConsecutive(steps: seq<Step>, t: Live, id: SessionId, i: nat)
    requires Runs(Initial, steps, t) && id in t.state.files && i < |t.state.files[id].lines|
    ensures t.state.files[id].lines[i].Line? && t.state.files[id].lines[i].ordinal == i + 1
  {
    hide Replay;
    ReachableInv(steps, t);
    assert FileInv(t.state.files, id);
  }

  predicate SwitchesSession(step: Step) {
    step.NewSession? || step.Resume? || step.Exit?
  }

  /** A poisoned conversation writes nothing more until the session is switched, whatever else happens. */
  lemma {:induction false} PoisonFreezesFiles(s: Live, steps: seq<Step>, t: Live)
    requires Runs(s, steps, t) && s.state.poisoned
    requires forall i | 0 <= i < |steps| :: !SwitchesSession(steps[i])
    ensures t.state.poisoned && t.state.files == s.state.files && t.state.current == s.state.current
    decreases steps
  {
    hide SnapshotOf, MeasuredPlan;
    if steps != [] {
      assert !SwitchesSession(steps[0]);
      PoisonFreezesFiles(Apply(s, steps[0]), steps[1..], t);
    }
  }

  function IoOf(step: Step): Option<Io> {
    match step
    case Push(_, io) => Some(io)
    case SetTodos(_, io) => Some(io)
    case Select(_, io) => Some(io)
    case LogCheckpoint(_, io) => Some(io)
    case _ => None
  }

  /** The step reaches an append, and that append fails. */
  predicate Fails(s: Live, step: Step) {
    && IoOf(step).Some? && AppendFails(s.state, IoOf(step).value)
    && (step.Select? ==> s.state.current.Some?)
  }

  /** A failed append leaves every file as it is; the first one may leave a new file without records. */
  lemma FailureKeepsFiles(s: Live, step: Step)
    requires Enabled(s, step) && Fails(s, step)
    ensures
      var t := Apply(s, step).state;
      && t.poisoned && Attached(t)
      && (s.state.current.Some? ==> t.current == s.state.current && t.files == s.state.files)
      && (s.state.current.None? && t.current.Some? ==> t.files[t.current.value.id].lines == [])
      && (forall id <- s.state.files :: id in t.files && t.files[id] == s.state.files[id])
  {
  }

  /**
   After a failed write the log still replays to the transcript and the checklist of the last successful
   append, and to nothing if it was the first append of a conversation: fail in any run, and go on in any
   way that does not switch sessions.
   */
  lemma FailedWriteKeepsTheLog(before: seq<Step>, s: Live, step: Step, after: seq<Step>, t: Live)
    requires Runs(Initial, before, s) && !s.state.poisoned
    requires Enabled(s, step) && Fails(s, step)
    requires Runs(Apply(s, step), after, t)
    requires forall i | 0 <= i < |after| :: !SwitchesSession(after[i])
    ensures Attached(t.state) && LogOf(t.state).history == s.state.history && LogOf(t.state).todos == s.state.todos
    ensures s.state.current.Some? ==> t.state.current == s.state.current && t.state.files == s.state.files
    ensures s.state.current.None? ==> s.state.history == [] && s.state.todos == []
    ensures s.state.current.None? && t.state.current.Some? ==> t.state.files[t.state.current.value.id].lines == []
    ensures forall id <- s.state.files :: id in t.state.files && t.state.files[id] == s.state.files[id]
  {
    hide Replay, Apply;
    ReachableInv(before, s);
    FailureKeepsFiles(s, step);
    PoisonFreezesFiles(Apply(s, step), after, t);
    if s.state.current.None? && t.state.current.Some? {
      EmptyFileReplays(t.state.files[t.state.current.value.id].model);
    }
  }

  predicate IsCompactionStep(step: Step) {
    step.TakeSnapshot? || step.TakeSlot? || step.Measure? || step.LogCheckpoint? || step.Install? || step.Release?
  }

  /**
   No step of a compaction touches transcript or checklist; only installing touches the active history,
   and only logging the files. A checkpoint is logged unless the conversation is poisoned or the write
   fails, and a failed write ends the compaction.
   */
  lemma CompactionIsAllOrNothing(steps: seq<Step>, s: Live, step: Step)
    requires Runs(Initial, steps, s) && Enabled(s, step) && IsCompactionStep(step)
    ensures
      var t := Apply(s, step);
      && t.state.history == s.state.history && t.state.todos == s.state.todos
      && (t.state.active != s.state.active ==> step.Install?)
      && (t.state.files != s.state.files ==> step.LogCheckpoint?)
      && (step.LogCheckpoint? ==>
            && t.flights[step.id].stage.Ended? == AppendFails(s.state, step.io)
            && (s.state.poisoned ==> t.state.files == s.state.files)
            && (!s.state.poisoned && !AppendFails(s.state, step.io) ==>
                  && t.state.current.Some? && t.flights[step.id].stage.log == Some(t.state.current.value.id)
                  && t.state.files != s.state.files))
  {
    hide Replay, SnapshotOf, MeasuredPlan, Inv, Appended;
    ReachableInv(steps, s);
    if step.LogCheckpoint? {
      LoggingStep(s, step.id, step.io);
    }
  }

  lemma LoggingStep(s: Live, id: FlightId, io: Io)
    requires Enabled(s, LogCheckpoint(id, io))
    ensures
      var t := Apply(s, LogCheckpoint(id, io));
      && t.state.history == s.state.history && t.state.todos == s.state.todos && t.state.active == s.state.active
      && t.flights[id].stage.Ended? == AppendFails(s.state, io)
      && (s.state.poisoned ==> t.state.files == s.state.files)
      && (!s.state.poisoned && !AppendFails(s.state, io) ==>
            && t.state.current.Some? && t.flights[id].stage.log == Some(t.state.current.value.id)
            && t.state.files != s.state.files)
  {
    var t := Apply(s, LogCheckpoint(id, io));
    if !s.state.poisoned && !AppendFails(s.state, io) && t.state.current.value.id in s.state.files {
      var session := t.state.current.value.id;
      assert |t.state.files[session].lines| == |s.state.files[session].lines| + 1;
    }
  }

  /**
   What is installed is the summary followed by exactly two user turns, and its checkpoint is in the log
   of the session it went to; it is in no log only if the conversation was poisoned when it was due.
   */
  lemma InstalledHistoryHasTwoTurns(steps: seq<Step>, s: Live, id: FlightId)
    requires Runs(Initial, steps, s) && Enabled(s, Install(id))
    ensures
      var active := Apply(s, Install(id)).state.active;
      var Logged(plan, log) := s.flights[id].stage;
      && active == plan.projected && active != [] && active[0] == SummaryEntry(plan.checkpoint.summary)
      && PreservedTailStart(active) == Some(1) && Users(active[1..]) == 2
      && (log.Some? ==>
            log.value in s.state.files && plan.checkpoint in LoadedOf(s.state.files, log.value).compactions)
  {
    hide Replay, Users, LastUser, PreservedTailStart;
    ReachableInv(steps, s);
    var flight := s.flights[id];
    assert FlightInv(s.state.files, flight);
    var active := flight.stage.plan.projected;
    PreservedTailHoldsTwoTurns(flight.snapshot);
    assert active[1..] == flight.snapshot[flight.firstKept..];
    PreservedTailIsUnique(active, 1);
  }

  /** A checkpoint that was skipped was due while the conversation was poisoned. */
  lemma OnlyPoisonSkipsTheLog(s: Live, id: FlightId, io: Io)
    requires Enabled(s, LogCheckpoint(id, io))
    ensures
      var stage := Apply(s, LogCheckpoint(id, io)).flights[id].stage;
      stage.Logged? ==> (stage.log.None? <==> s.state.poisoned)
  {
  }

  /** Uninterrupted, the steps of a compaction compute exactly the undisturbed operation. */
  lemma StepsOfACompaction(
      s: Live, id: FlightId, trigger: string, summary: string, estimate: seq<Entry> -> nat, io: Io) returns (t: Live)
    requires Inv(s) && s.flights == map[] && s.state.slot.None? && Fresh(s.state, io) && !AppendFails(s.state, io)
    requires SnapshotOf(s.state.active, trigger, estimate).Some?
    requires MeasuredPlan(s.state.history, SnapshotOf(s.state.active, trigger, estimate).value, Some(summary), estimate).Some?
    ensures
      Runs(s, [TakeSnapshot(id, trigger, estimate), TakeSlot(id), Measure(id, Some(summary), estimate),
               LogCheckpoint(id, io), Install(id), Release(id)], t)
    ensures
      var flight := SnapshotOf(s.state.active, trigger, estimate).value;
      t.state == Persisted(s.state, flight, Some(summary), estimate, io) && t.flights == map[]
  {
    hide Inv, Enabled, Apply, Moves, SnapshotOf, MeasuredPlan, Appended, Runs;
    var flight := SnapshotOf(s.state.active, trigger, estimate).value;
    assert Attached(s.state) by { InvParts(s); }
    var s1, s2 := CompactionBegins(s, id, trigger, estimate);
    MeasureIgnoresStage(s.state.history, flight, Summarizing, Some(summary), estimate);
    var plan := MeasuredPlan(s.state.history, flight, Some(summary), estimate).value;
    AppendIgnoresSlot(s.state, Some(id), Compaction(plan.checkpoint), io);
    var s3, s4 := CompactionLogs(s2, id, summary, estimate, io);
    var s5, s6 := CompactionEnds(s4, id);
    t := s6;
    AppendIgnoresSlot(s.state, None, Compaction(plan.checkpoint), io);
    PathIsRun([s, s1, s2, s3, s4, s5, s6],
              [TakeSnapshot(id, trigger, estimate), TakeSlot(id), Measure(id, Some(summary), estimate),
               LogCheckpoint(id, io), Install(id), Release(id)]);
  }

  lemma MeasureIgnoresStage(history: seq<Entry>, flight: Flight, stage: Stage, summary: Option<string>, estimate: seq<Entry> -> nat)
    requires flight.firstKept <= |flight.snapshot|
    ensures MeasuredPlan(history, flight.(stage := stage), summary, estimate) == MeasuredPlan(history, flight, summary, estimate)
  {
  }

  lemma AppendIgnoresSlot(s: State, slot: Option<FlightId>, record: Record, io: Io)
    requires Attached(s)
    ensures Appended(s.(slot := slot), record, io) == Appended(s, record, io).(slot := slot)
    ensures AppendFails(s.(slot := slot), io) == AppendFails(s, io)
  {
  }

  ghost predicate Moves(s: Live, step: Step, t: Live) {
    Enabled(s, step) && t == Apply(s, step)
  }

  lemma {:induction false} PathIsRun(path: seq<Live>, steps: seq<Step>)
    requires |path| == |steps| + 1
    requires forall i | 0 <= i < |steps| :: Moves(path[i], steps[i], path[i + 1])
    ensures Runs(path[0], steps, path[|steps|])
    decreases steps
  {
    hide Enabled, Apply;
    if steps != [] {
      assert Moves(path[0], steps[0], path[1]);
      forall i | 0 <= i < |steps| - 1 ensures Moves(path[1..][i], steps[1..][i], path[1..][i + 1]) {
        assert Moves(path[i + 1], steps[i + 1], path[i + 2]);
      }
      PathIsRun(path[1..], steps[1..]);
    }
  }

  lemma CompactionBegins(s: Live, id: FlightId, trigger: string, estimate: seq<Entry> -> nat) returns (s1: Live, s2: Live)
    requires Attached(s.state) && s.flights == map[] && s.state.slot.None?
    requires SnapshotOf(s.state.active, trigger, estimate).Some?
    ensures Moves(s, TakeSnapshot(id, trigger, estimate), s1) && Moves(s1, TakeSlot(id), s2)
    ensures s2.state == s.state.(slot := Some(id))
    ensures s2.flights == map[id := SnapshotOf(s.state.active, trigger, estimate).value.(stage := Summarizing)]
  {
    hide PreservedTailStart;
    s1 := Apply(s, TakeSnapshot(id, trigger, estimate));
    s2 := Apply(s1, TakeSlot(id));
  }

  lemma CompactionLogs(s: Live, id: FlightId, summary: string, estimate: seq<Entry> -> nat, io: Io) returns (s1: Live, s2: Live)
    requires Attached(s.state) && Fresh(s.state, io) && !AppendFails(s.state, io)
    requires s.flights.Keys == {id} && Sound(s.flights[id]) && s.flights[id].stage.Summarizing?
    requires MeasuredPlan(s.state.history, s.flights[id], Some(summary), estimate).Some?
    ensures Moves(s, Measure(id, Some(summary), estimate), s1) && Moves(s1, LogCheckpoint(id, io), s2)
    ensures
      var plan := MeasuredPlan(s.state.history, s.flights[id], Some(summary), estimate).value;
      && s2.state == Appended(s.state, Compaction(plan.checkpoint), io) && Attached(s2.state)
      && s2.flights.Keys == {id} && s2.flights[id].stage.Logged? && s2.flights[id].stage.plan == plan
  {
    s1 := Apply(s, Measure(id, Some(summary), estimate));
    s2 := Apply(s1, LogCheckpoint(id, io));
  }

  lemma CompactionEnds(s: Live, id: FlightId) returns (s1: Live, s2: Live)
    requires Attached(s.state) && s.flights.Keys == {id} && s.flights[id].stage.Logged?
    ensures Moves(s, Install(id), s1) && Moves(s1, Release(id), s2)
    ensures s2.state == s.state.(active := s.flights[id].stage.plan.projected, slot := None) && s2.flights == map[]
  {
    s1 := Apply(s, Install(id));
    s2 := Apply(s1, Release(id));
    assert s2.flights.Keys == {};
  }

  function Switched(s: State, switch: Step): State
    requires switch.NewSession? || (switch.Resume? && switch.session in s.files)
  {
    if switch.NewSession? then Restarted(s) else Resumed(s, switch.session)
  }

  // ---------------------------------------------------------------- switches inside other operations

  /** The part of a push that goes to the transcript, to the active history, or to both. */
  function PushedTo(s: State, entry: Entry, history: bool, active: bool): State {
    s.(history := if history then s.history + [entry] else s.history,
       active := if active then s.active + [entry] else s.active)
  }

  /**
   Why a switch must not fall into a push. A submission pushes to the transcript, the active history and
   the log, the turn loop to the active history, the transcript and the log; `inHistory` and `inActive`
   are the ones it had reached. Whatever had the entry by then loses it, the rest and the log get it: the
   log agrees with each history exactly if the push had not reached that one.
   */
  lemma SwitchInsidePush(steps: seq<Step>, s: Live, switch: Step, entry: Entry, inHistory: bool, inActive: bool, io: Io)
    requires Runs(Initial, steps, s) && Enabled(s, switch) && (switch.NewSession? || switch.Resume?)
    requires io.created && io.written
    ensures
      var u := Switched(PushedTo(s.state, entry, inHistory, inActive), switch);
      && u == Apply(s, switch).state && Attached(u)
      && var t := Appended(PushedTo(u, entry, !inHistory, !inActive), HistoryEntry(entry), io);
         && t.current.Some? && Attached(t) && !t.poisoned
         && LogOf(t).history == u.history + [entry] && LogOf(t).active == u.active + [entry]
         && (LogOf(t).history == t.history <==> !inHistory)
         && (LogOf(t).active == t.active <==> !inActive)
  {
    hide Replay;
    var u := SwitchedState(steps, s, switch);
    AppendedReplays(PushedTo(u, entry, !inHistory, !inActive), HistoryEntry(entry), io);
    assert |u.history + [entry]| > |u.history| && |u.active + [entry]| > |u.active|;
  }

  /** A state that was just switched is what its log replays to. */
  lemma SwitchedState(steps: seq<Step>, s: Live, switch: Step) returns (u: State)
    requires Runs(Initial, steps, s) && Enabled(s, switch) && (switch.NewSession? || switch.Resume?)
    ensures u == Apply(s, switch).state && Inv(Apply(s, switch)) && Attached(u) && !u.poisoned
    ensures LogOf(u).history == u.history && LogOf(u).active == u.active && LogOf(u).todos == u.todos
    ensures
      u.current.Some? ==> FileInv(u.files, u.current.value.id) && u.current.value.nextOrdinal == LogOf(u).nextOrdinal
  {
    hide Replay, FlightInv, SlotInv;
    ReachableInv(steps, s);
    ApplyKeepsInv(s, switch);
    u := Apply(s, switch).state;
    if u.current.Some? {
      assert FileInv(u.files, u.current.value.id);
    }
  }

  /** The same for the checklist: it goes to a log whose conversation keeps the checklist it had. */
  lemma SwitchInsideSetTodos(steps: seq<Step>, s: Live, switch: Step, todos: seq<Todo>, io: Io)
    requires Runs(Initial, steps, s) && Enabled(s, switch) && (switch.NewSession? || switch.Resume?)
    requires io.created && io.written
    ensures
      var u := Switched(s.state.(todos := todos), switch);
      && u == Apply(s, switch).state && Attached(u)
      && var t := Appended(u, TodoListUpdate(todos), io);
         && t.current.Some? && Attached(t) && !t.poisoned
         && LogOf(t).todos == todos && t.todos == u.todos
         && LogOf(t).history == t.history && LogOf(t).active == t.active
  {
    hide Replay;
    var u := SwitchedState(steps, s, switch);
    AppendedReplays(u, TodoListUpdate(todos), io);
  }

  /**
   And for a retry: the call goes with the conversation it was made in, its result lands in the one that
   was switched to, and dropping both then cuts that one's last entry, if it has any.
   */
  lemma SwitchInsideRetry(s: Live, switch: Step, call: Entry, result: Entry)
    requires Enabled(s, switch) && (switch.NewSession? || switch.Resume?)
    ensures
      var u := Switched(s.state.(active := s.state.active + [call]), switch);
      && u == Apply(s, switch).state
      && var t := EphemeralDropped(u.(active := u.active + [result], ephemeral := 2));
         && Attached(t)
         && t.active == (if u.active == [] then [] else u.active[..|u.active| - 1])
         && (LogOf(t).active == t.active <==> u.active == [])
  {
    hide Replay;
    var u := Apply(s, switch).state;
    var t := EphemeralDropped(u.(active := u.active + [result], ephemeral := 2));
    assert u.active != [] ==> |t.active| == |u.active| - 1;
  }

  /** A file is only ever extended, and only the one of the attached session. */
  ghost predicate GrewFrom(before: map<SessionId, SessionFile>, files: map<SessionId, SessionFile>, id: SessionId) {
    && id in before && id in files && files[id].model == before[id].model
    && |before[id].lines| <= |files[id].lines| && files[id].lines[..|before[id].lines|] == before[id].lines
  }

  lemma StepExtendsFile(s: Live, step: Step, id: SessionId)
    requires Enabled(s, step) && !SwitchesSession(step) && id in s.state.files
    ensures
      var t := Apply(s, step).state;
      && GrewFrom(s.state.files, t.files, id)
      && (s.state.current.None? || s.state.current.value.id != id ==>
            t.files[id] == s.state.files[id] && (t.current.None? || t.current.value.id != id))
  {
    hide SnapshotOf, MeasuredPlan;
    assert s.state.files[id].lines[..|s.state.files[id].lines|] == s.state.files[id].lines;
  }

  lemma {:induction false} RunExtendsFile(s: Live, steps: seq<Step>, t: Live, id: SessionId)
    requires Runs(s, steps, t) && id in s.state.files
    requires forall i | 0 <= i < |steps| :: !SwitchesSession(steps[i])
    ensures GrewFrom(s.state.files, t.state.files, id)
    ensures
      s.state.current.None? || s.state.current.value.id != id ==>
        t.state.files[id] == s.state.files[id] && (t.state.current.None? || t.state.current.value.id != id)
    decreases steps
  {
    hide Enabled, Apply;
    if steps == [] {
      assert s.state.files[id].lines[..|s.state.files[id].lines|] == s.state.files[id].lines;
    } else {
      assert !SwitchesSession(steps[0]);
      var next := Apply(s, steps[0]);
      StepExtendsFile(s, steps[0], id);
      RunExtendsFile(next, steps[1..], t, id);
      var n, k := |s.state.files[id].lines|, |next.state.files[id].lines|;
      assert t.state.files[id].lines[..k][..n] == t.state.files[id].lines[..n];
    }
  }

  /**
   Resuming reads the file before it takes the conversation's locks. What is attached agrees with the log
   exactly if nothing was appended to that file in between, which only a session that is resumed while it
   is attached has to fear; else the next record repeats an ordinal.
   */
  lemma AppendsInsideResume(before: seq<Step>, s: Live, session: SessionId, between: seq<Step>, v: Live)
    requires Runs(Initial, before, s) && session in s.state.files
    requires Runs(s, between, v) && forall i | 0 <= i < |between| :: !SwitchesSession(between[i])
    ensures session in v.state.files
    ensures
      var t := AttachedTo(v.state, session, LoadedOf(s.state.files, session));
      && (Synced(t) <==> v.state.files[session] == s.state.files[session])
      && t.current.value.nextOrdinal
         == LogOf(t).nextOrdinal - (|v.state.files[session].lines| - |s.state.files[session].lines|)
    ensures
      s.state.current.None? || s.state.current.value.id != session ==>
        v.state.files[session] == s.state.files[session]
  {
    hide Replay, Enabled, Apply, FlightInv, SlotInv;
    ReachableInv(before, s);
    RunKeepsInv(s, between, v);
    RunExtendsFile(s, between, v, session);
    assert FileInv(s.state.files, session) && FileInv(v.state.files, session);
    if |v.state.files[session].lines| == |s.state.files[session].lines| {
      assert v.state.files[session].lines[..|v.state.files[session].lines|] == v.state.files[session].lines;
    }
  }

  // ---------------------------------------------------------------- single steps

  /** An append poisons the conversation exactly if the file system fails it; a poisoned one reports success. */
  lemma AppendSucceedsIff(s: State, record: Record, io: Io)
    requires Attached(s)
    ensures
      var t := Appended(s, record, io);
      && (t.poisoned <==> s.poisoned || !io.written || (s.current.None? && !io.created))
      && (AppendFails(s, io) <==> t.poisoned && !s.poisoned)
      && t.history == s.history && t.active == s.active && t.todos == s.todos && t.ephemeral == s.ephemeral
  {
  }

  /** In every run a changed selection is what the log of the attached session replays to; without one it is not logged. */
  lemma SelectionIsLogged(steps: seq<Step>, s: Live, record: Record, io: Io)
    requires Runs(Initial, steps, s) && Enabled(s, Select(record, io)) && !s.state.poisoned
    ensures
      var t := Apply(s, Select(record, io));
      && (s.state.current.None? ==> t == s)
      && (s.state.current.Some? && io.written ==>
            && Attached(t.state) && LogOf(t.state).thinking == record.thinking
            && LogOf(t.state).model == (if record.ModelChange? then Some(record.model) else LogOf(s.state).model)
            && LogOf(t.state).history == s.state.history)
  {
    hide Replay, FlightInv, SlotInv;
    ReachableInv(steps, s);
    if s.state.current.Some? && io.written {
      assert FileInv(s.state.files, s.state.current.value.id);
      AppendedReplays(s.state, record, io);
    }
  }

  /** A retry is shown behind everything else, reaches neither transcript nor log, and leaves no trace when dropped. */
  lemma RetryIsShownUntilDropped(s: Live, call: Entry, result: Entry)
    requires Enabled(s, PushEphemeral(call, result))
    ensures
      var t := Apply(s, PushEphemeral(call, result));
      && t.state.active == s.state.active + [call] + [result]
      && t.state.history == s.state.history && t.state.files == s.state.files
      && Apply(t, DropEphemeral) == s
  {
    var t := Apply(s, PushEphemeral(call, result));
    assert t.state.active[..|s.state.active|] == s.state.active;
  }

  /** In every run at most one compaction is past its announcement: the one that holds the slot. */
  lemma OneCompactionAtATime(steps: seq<Step>, t: Live, id: FlightId)
    requires Runs(Initial, steps, t) && id in t.flights
    ensures t.flights[id].stage.Waiting? <==> t.state.slot != Some(id)
  {
    ReachableInv(steps, t);
  }
}
