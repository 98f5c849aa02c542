/**
 When a compaction begins, when it goes on, and what it writes down: nothing is logged or installed unless it
 makes the history that is shown smaller.
 */
module Progress {
  import opened Wrappers
  import opened SessionLog
  import opened Conversation

  type Estimator = seq<Entry> -> nat

  /** There is one way to estimate the size of a history. */
  ghost predicate Estimates(step: Step, size: Estimator) {
    && (step.TakeSnapshot? ==> step.estimate == size)
    && (step.Measure? ==> step.estimate == size)
  }

  /** The two last user turns of a history start at `k`, and something precedes them. */
  ghost predicate KeepsFrom(history: seq<Entry>, k: nat) {
    1 <= k < |history| && history[k].role == User && Users(history[k..]) == 2
  }

  lemma KeepsFromTail(history: seq<Entry>, k: nat)
    ensures KeepsFrom(history, k) <==> PreservedTailStart(history) == Some(k) && 1 <= k
  {
    hide Users, LastUser, PreservedTailStart;
    PreservedTailHoldsTwoTurns(history);
    if KeepsFrom(history, k) {
      PreservedTailIsUnique(history, k);
    }
  }

  /** What is shown once the history has been compacted. */
  function Shortened(history: seq<Entry>, k: nat, summary: string): seq<Entry>
    requires k <= |history|
  {
    [Entry(User, "Previous context was compacted.\n\n" + summary, [], "", [])] + history[k..]
  }

  /** A plan for `history`: what it shows is smaller, and its checkpoint says by how much. */
  ghost predicate Shortens(plan: Plan, history: seq<Entry>, k: nat, trigger: string, size: Estimator) {
    && KeepsFrom(history, k)
    && plan.projected == Shortened(history, k, plan.checkpoint.summary)
    && plan.checkpoint.tokensBefore == size(history)
    && plan.checkpoint.tokensAfter == size(plan.projected) < size(history)
    && plan.checkpoint.trigger == trigger
  }

  /** A compaction remembers what it was begun on. */
  ghost predicate Remembers(s: Live, id: FlightId, size: Estimator) {
    id in s.flights ==>
      && id in s.begunOn
      && var (flight, history) := (s.flights[id], s.begunOn[id]);
         && flight.snapshot == history && KeepsFrom(history, flight.firstKept) && flight.before == size(history)
         && (flight.stage.Measured? || flight.stage.Logged? ==>
               Shortens(flight.stage.plan, history, flight.firstKept, flight.trigger, size))
  }

  predicate MakesProgress(checkpoint: Checkpoint) {
    checkpoint.tokensAfter < checkpoint.tokensBefore
  }

  ghost predicate LogsProgress(files: map<SessionId, SessionFile>) {
    forall id <- files :: forall c <- LoadedOf(files, id).compactions :: MakesProgress(c)
  }

  lemma StepRemembers(s: Live, step: Step, id: FlightId, size: Estimator)
    requires Enabled(s, step) && Estimates(step, size) && Remembers(s, id, size)
    ensures Remembers(Apply(s, step), id, size)
  {
    hide Replay, Users, LastUser, PreservedTailStart, Appended;
    if step.TakeSnapshot? && step.id == id {
      var start := PreservedTailStart(s.state.active);
      if start.Some? {
        KeepsFromTail(s.state.active, start.value);
      }
    }
  }

  lemma {:induction false} RunRemembers(s: Live, steps: seq<Step>, t: Live, id: FlightId, size: Estimator)
    requires Runs(s, steps, t) && Remembers(s, id, size) && forall i | 0 <= i < |steps| :: Estimates(steps[i], size)
    ensures Remembers(t, id, size)
    decreases steps
  {
    hide Remembers, Enabled, Apply, Estimates;
    if steps != [] {
      assert Estimates(steps[0], size);
      StepRemembers(s, steps[0], id, size);
      RunRemembers(Apply(s, steps[0]), steps[1..], t, id, size);
    }
  }

  // ---------------------------------------------------------------- results

  /** A compaction begins exactly if something precedes the last two user turns of the active history. */
  lemma SnapshotIsTakenIff(s: Live, id: FlightId, trigger: string, estimate: Estimator)
    requires Enabled(s, TakeSnapshot(id, trigger, estimate))
    ensures
      var t := Apply(s, TakeSnapshot(id, trigger, estimate));
      && t.state == s.state
      && (id in t.flights <==> exists k: nat :: KeepsFrom(s.state.active, k))
      && (id in t.flights ==>
            && t.begunOn[id] == s.state.active && t.flights[id].stage == Waiting && t.flights[id].trigger == trigger)
  {
    hide Users, LastUser, PreservedTailStart;
    var start := PreservedTailStart(s.state.active);
    if start.Some? {
      KeepsFromTail(s.state.active, start.value);
    }
    if exists k: nat :: KeepsFrom(s.state.active, k) {
      var k: nat :| KeepsFrom(s.state.active, k);
      KeepsFromTail(s.state.active, k);
    }
  }

  /**
   In every run a summary is used exactly if the summary and the last two user turns of the history the
   compaction was begun on are smaller than that history; otherwise the compaction ends.
   */
  lemma MeasuringDecides(
      steps: seq<Step>, s: Live, id: FlightId, summary: Option<string>, size: Estimator, k: nat)
    requires Runs(Initial, steps, s) && forall i | 0 <= i < |steps| :: Estimates(steps[i], size)
    requires Enabled(s, Measure(id, summary, size)) && id in s.begunOn && KeepsFrom(s.begunOn[id], k)
    ensures
      var (t, history) := (Apply(s, Measure(id, summary, size)), s.begunOn[id]);
      && t.state == s.state && id in t.flights
      && (t.flights[id].stage.Ended? <==> summary.None? || size(Shortened(history, k, summary.value)) >= size(history))
      && (!t.flights[id].stage.Ended? ==>
            && t.flights[id].stage.Measured?
            && var plan := t.flights[id].stage.plan;
               && plan.projected == Shortened(history, k, summary.value) && plan.checkpoint.summary == summary.value
               && plan.checkpoint.tokensBefore == size(history) && plan.checkpoint.tokensAfter == size(plan.projected)
               && plan.checkpoint.historyLen == |s.state.history|)
  {
    hide Replay, Users, LastUser, PreservedTailStart;
    RunRemembers(Initial, steps, s, id, size);
    KeepsFromTail(s.begunOn[id], k);
    KeepsFromTail(s.begunOn[id], s.flights[id].firstKept);
  }

  /** What is installed is what was measured, smaller than the history the compaction was begun on. */
  lemma InstallingShortens(steps: seq<Step>, s: Live, id: FlightId, size: Estimator)
    requires Runs(Initial, steps, s) && forall i | 0 <= i < |steps| :: Estimates(steps[i], size)
    requires Enabled(s, Install(id))
    ensures id in s.begunOn
    ensures
      var (active, plan) := (Apply(s, Install(id)).state.active, s.flights[id].stage.plan);
      && active == plan.projected
      && Shortens(plan, s.begunOn[id], s.flights[id].firstKept, s.flights[id].trigger, size)
      && size(active) < size(s.begunOn[id])
  {
    hide Replay, Users;
    RunRemembers(Initial, steps, s, id, size);
  }

  lemma AppendLogsProgress(s: State, record: Record, io: Io)
    requires Attached(s) && Fresh(s, io) && FilesInv(s.files) && LogsProgress(s.files)
    requires !s.poisoned && s.current.Some? ==> s.current.value.nextOrdinal == LogOf(s).nextOrdinal
    requires record.Compaction? ==> MakesProgress(record.checkpoint)
    ensures LogsProgress(Appended(s, record, io).files)
  {
    hide Replay;
    var t := Appended(s, record, io);
    if s.current.Some? {
      assert FileInv(s.files, s.current.value.id);
    }
    if !s.poisoned && !AppendFails(s, io) {
      AppendedReplays(s, record, io);
    }
    EmptyFileReplays(io.model);
  }

  lemma StepLogsProgress(s: Live, step: Step, size: Estimator)
    requires Inv(s) && Enabled(s, step) && LogsProgress(s.state.files)
    requires step.LogCheckpoint? ==> Remembers(s, step.id, size)
    ensures LogsProgress(Apply(s, step).state.files)
  {
    hide Replay, LogsProgress, Appended, FlightInv, SlotInv, SnapshotOf, MeasuredPlan, Users;
    match step
    case Push(entry, io) =>
      AppendLogsProgress(s.state.(history := s.state.history + [entry], active := s.state.active + [entry]), HistoryEntry(entry), io);
    case SetTodos(todos, io) => AppendLogsProgress(s.state.(todos := todos), TodoListUpdate(todos), io);
    case Select(record, io) =>
      if s.state.current.Some? {
        AppendLogsProgress(s.state, record, io);
      }
    case LogCheckpoint(id, io) => AppendLogsProgress(s.state, Compaction(s.flights[id].stage.plan.checkpoint), io);
    case _ =>
  }

  lemma {:induction false} RunLogsProgress(s: Live, steps: seq<Step>, t: Live, size: Estimator)
    requires Inv(s) && Runs(s, steps, t) && LogsProgress(s.state.files)
    requires forall id :: Remembers(s, id, size)
    requires forall i | 0 <= i < |steps| :: Estimates(steps[i], size)
    ensures LogsProgress(t.state.files)
    decreases steps
  {
    hide Inv, LogsProgress, Remembers, Enabled, Apply, Estimates;
    if steps != [] {
      assert Estimates(steps[0], size);
      ApplyKeepsInv(s, steps[0]);
      StepLogsProgress(s, steps[0], size);
      forall id ensures Remembers(Apply(s, steps[0]), id, size) {
        StepRemembers(s, steps[0], id, size);
      }
      RunLogsProgress(Apply(s, steps[0]), steps[1..], t, size);
    }
  }

  /** In every run, every checkpoint in every log says that it made the history smaller. */
  lemma EveryCheckpointMakesProgress(steps: seq<Step>, t: Live, size: Estimator, id: SessionId, i: nat)
    requires Runs(Initial, steps, t) && forall i | 0 <= i < |steps| :: Estimates(steps[i], size)
    requires id in t.state.files && i < |LoadedOf(t.state.files, id).compactions|
    ensures
      var checkpoint := LoadedOf(t.state.files, id).compactions[i];
      checkpoint.tokensAfter < checkpoint.tokensBefore
  {
    hide Replay;
    ReachableInv([], Initial);
    RunLogsProgress(Initial, steps, t, size);
    assert MakesProgress(LoadedOf(t.state.files, id).compactions[i]);
  }
}
