/**
 What compaction promises: which entry a checkpoint points at, when the log replays to the active history,
 and what happens to both when other work interferes.
 */
module Compaction {
  import opened Wrappers
  import opened SessionLog
  import opened Conversation

  // ---------------------------------------------------------------- checkpoints

  function Projection(history: seq<Entry>, checkpoint: Option<Checkpoint>): seq<Entry> {
    if checkpoint.None? then history else ProjectedHistory(history, checkpoint.value)
  }

  /** At least two user turns follow a checkpoint, and something precedes it. */
  ghost predicate GoodCheckpoint(history: seq<Entry>, checkpoint: Option<Checkpoint>) {
    checkpoint.Some? ==>
      1 <= checkpoint.value.firstKept <= |history| && Users(history[checkpoint.value.firstKept..]) >= 2
  }

  lemma GoodCheckpointGrows(history: seq<Entry>, checkpoint: Option<Checkpoint>, entry: Entry)
    requires GoodCheckpoint(history, checkpoint)
    ensures GoodCheckpoint(history + [entry], checkpoint)
    ensures Projection(history + [entry], checkpoint) == Projection(history, checkpoint) + [entry]
  {
    if checkpoint.Some? {
      var k := checkpoint.value.firstKept;
      assert (history + [entry])[k..] == history[k..] + [entry];
      UsersAppend(history[k..], [entry]);
    }
  }

  /** In the projection, the preserved tail starts behind the summary and at the canonical tail start. */
  lemma TailOfProjection(history: seq<Entry>, checkpoint: Checkpoint)
    requires GoodCheckpoint(history, Some(checkpoint))
    ensures
      var projection := ProjectedHistory(history, checkpoint);
      var (inProjection, inHistory) := (PreservedTailStart(projection), PreservedTailStart(history));
      && inProjection.Some? && inHistory.Some?
      && inProjection.value >= 1 && checkpoint.firstKept <= inHistory.value
      && |projection| - inProjection.value == |history| - inHistory.value
      && projection[inProjection.value..] == history[inHistory.value..]
  {
    hide Users, LastUser, PreservedTailStart;
    var k := checkpoint.firstKept;
    var tail := history[k..];
    var projection := ProjectedHistory(history, checkpoint);
    PreservedTailHoldsTwoTurns(tail);
    var j := PreservedTailStart(tail).value;
    assert history[k + j..] == tail[j..];
    assert projection[1 + j..] == tail[j..];
    assert PreservedTailStart(history) == Some(k + j) by { PreservedTailIsUnique(history, k + j); }
    assert PreservedTailStart(projection) == Some(1 + j) by { PreservedTailIsUnique(projection, 1 + j); }
  }

  /**
   The subtraction that computes the checkpoint index is exact and does not saturate: it gives the
   second-to-last user entry of the whole canonical transcript.
   */
  lemma IndexIsCanonicalTailStart(history: seq<Entry>, checkpoint: Option<Checkpoint>, snapshot: seq<Entry>, firstKept: nat)
    requires GoodCheckpoint(history, checkpoint) && SameText(snapshot, Projection(history, checkpoint))
    requires PreservedTailStart(snapshot) == Some(firstKept)
    ensures PreservedTailStart(history) == Some(FirstKeptIndex(|history|, |snapshot|, firstKept))
    ensures |snapshot| - firstKept <= |history|
    ensures SameText(snapshot[firstKept..], history[FirstKeptIndex(|history|, |snapshot|, firstKept)..])
    ensures checkpoint.Some? ==> checkpoint.value.firstKept <= FirstKeptIndex(|history|, |snapshot|, firstKept)
    ensures checkpoint.Some? || firstKept >= 1 ==> FirstKeptIndex(|history|, |snapshot|, firstKept) >= 1
  {
    hide Users, LastUser, PreservedTailStart;
    var projection := Projection(history, checkpoint);
    assert |snapshot| == |projection| && PreservedTailStart(projection) == Some(firstKept) by {
      SameTextSameTail(snapshot, projection);
      SameTextSameUsers(snapshot, projection);
    }
    if checkpoint.Some? {
      TailOfProjection(history, checkpoint.value);
    }
    var start := PreservedTailStart(history).value;
    assert projection[firstKept..] == history[start..];
    assert start == FirstKeptIndex(|history|, |snapshot|, firstKept);
    assert SameText(snapshot[firstKept..], projection[firstKept..]) by {
      SameTextSlice(snapshot, projection, firstKept, |snapshot|);
      assert snapshot[firstKept..|snapshot|] == snapshot[firstKept..];
      assert projection[firstKept..|snapshot|] == projection[firstKept..];
    }
  }

  lemma {:induction false} TrailingNonUsers(history: seq<Entry>, extra: seq<Entry>)
    requires forall i | 0 <= i < |extra| :: extra[i].role != User
    ensures LastUser(history + extra) == LastUser(history)
    ensures PreservedTailStart(history + extra) == PreservedTailStart(history)
  {
    if extra == [] {
      assert history + extra == history;
    } else {
      assert (history + extra)[..|history + extra| - 1] == history + extra[..|extra| - 1];
      TrailingNonUsers(history, extra[..|extra| - 1]);
      if LastUser(history).Some? {
        assert (history + extra)[..LastUser(history).value] == history[..LastUser(history).value];
      }
    }
  }

  /**
   Without the discipline: let the snapshot end in `retries` (entries that were never logged) and let
   `appended` entries reach the canonical transcript before the result is installed. The recorded index
   is the tail start the snapshot meant exactly when the two numbers happen to agree.
   */
  lemma IndexIsRightIffNothingIntervened(
      history: seq<Entry>, checkpoint: Option<Checkpoint>, core: seq<Entry>, retries: seq<Entry>, appended: nat, firstKept: nat)
    requires GoodCheckpoint(history, checkpoint) && SameText(core, Projection(history, checkpoint))
    requires forall i | 0 <= i < |retries| :: retries[i].role != User
    requires PreservedTailStart(core + retries) == Some(firstKept) && firstKept >= 1
    ensures
      PreservedTailStart(history) == Some(FirstKeptIndex(|history| + appended, |core + retries|, firstKept))
      <==> appended == |retries|
  {
    TrailingNonUsers(core, retries);
    IndexIsCanonicalTailStart(history, checkpoint, core, firstKept);
  }

  // ---------------------------------------------------------------- what the provider is shown

  function Cut(history: seq<Entry>, n: nat): seq<Entry> {
    if n <= |history| then history[..|history| - n] else []
  }

  /** What is left of the active history once the turn loop has dropped the retry entries it counts. */
  function Visible(s: State): seq<Entry> {
    Cut(s.active, s.ephemeral)
  }

  ghost predicate Agrees(s: State)
    requires Attached(s)
  {
    SameText(Visible(s), LogOf(s).active)
  }

  lemma CutIsDropped(s: State)
    ensures EphemeralDropped(s).active == Visible(s) == Visible(EphemeralDropped(s))
  {
  }

  lemma SameTextIffAppended(a: seq<Entry>, b: seq<Entry>, entry: Entry)
    ensures SameText(a + [entry], b + [entry]) <==> SameText(a, b)
  {
    if SameText(a, b) {
      SameTextAppend(a, b, [entry]);
    }
    if SameText(a + [entry], b + [entry]) {
      SameTextSlice(a + [entry], b + [entry], 0, |a|);
      assert (a + [entry])[0..|a|] == a && (b + [entry])[0..|a|] == b;
    }
  }

  lemma SameTextSameLength(a: seq<Entry>, b: seq<Entry>)
    requires SameText(a, b)
    ensures |a| == |b|
  {
    assert |Erased(a)| == |Erased(b)|;
  }

  /** Work of others that neither fails, nor switches sessions, nor is part of a compaction. */
  predicate Interferes(s: Live, step: Step) {
    !SwitchesSession(step) && !IsCompactionStep(step) && !Fails(s, step)
  }

  ghost predicate RacingRun(s: Live, steps: seq<Step>, t: Live)
    decreases steps
  {
    if steps == [] then s == t
    else Enabled(s, steps[0]) && Interferes(s, steps[0]) && RacingRun(Apply(s, steps[0]), steps[1..], t)
  }

  /** What reaches the canonical transcript in the meantime. */
  function EntriesOf(steps: seq<Step>): seq<Entry> {
    if steps == [] then []
    else (if steps[0].Push? then [steps[0].entry] else []) + EntriesOf(steps[1..])
  }

  lemma RacingStep(s: Live, step: Step)
    requires Inv(s) && !s.state.poisoned && Enabled(s, step) && Interferes(s, step)
    ensures
      var t := Apply(s, step);
      var entries := if step.Push? then [step.entry] else [];
      && !t.state.poisoned && t.flights == s.flights && t.state.slot == s.state.slot && Attached(t.state)
      && t.state.history == s.state.history + entries
      && LogOf(t.state).history == LogOf(s.state).history + entries
      && LogOf(t.state).active == LogOf(s.state).active + entries
      && LogOf(t.state).compactions == LogOf(s.state).compactions
      && (s.state.current.Some? ==> t.state.current.Some?)
  {
    hide Replay, FlightInv, SlotInv;
    if s.state.current.Some? {
      assert FileInv(s.state.files, s.state.current.value.id);
    }
    match step
    case Push(entry, io) =>
      var base := s.state.(history := s.state.history + [entry], active := s.state.active + [entry]);
      AppendedReplays(base, HistoryEntry(entry), io);
    case SetTodos(todos, io) => AppendedReplays(s.state.(todos := todos), TodoListUpdate(todos), io);
    case Select(record, io) =>
      if s.state.current.Some? {
        AppendedReplays(s.state, record, io);
      }
    case _ =>
  }

  /** What is visible follows the transcript, retries and images play no part in it. */
  lemma RacingStepIsVisible(s: Live, step: Step)
    requires Enabled(s, step) && Interferes(s, step)
    ensures
      var t := Apply(s, step);
      if step.Push? then Visible(t.state) == Visible(s.state) + [step.entry]
      else SameText(Visible(t.state), Visible(s.state))
  {
    hide SameText, Replay;
    var t := Apply(s, step);
    SameTextIsReflexive(Visible(s.state));
    if step.DropEphemeral? {
      CutIsDropped(s.state);
    } else if step.ClearImages? {
      ErasingTwice(s.state.active);
      SameTextSlice(t.state.active, s.state.active, 0, |Visible(s.state)|);
      assert t.state.active[0..|Visible(s.state)|] == Visible(t.state);
      assert s.state.active[0..|Visible(s.state)|] == Visible(s.state);
    } else if step.Push? {
      assert Visible(t.state) == Visible(s.state) + [step.entry];
    } else {
      assert Visible(t.state) == Visible(s.state);
    }
  }

  lemma SameTextIsReflexive(a: seq<Entry>)
    ensures SameText(a, a)
  {
  }

  /** No step of others makes log and live agree, or disagree; only switches, failures and compactions do. */
  lemma {:induction false} AgreementLasts(s: Live, steps: seq<Step>, t: Live)
    requires Inv(s) && !s.state.poisoned && RacingRun(s, steps, t)
    ensures Attached(s.state) && Attached(t.state) && (Agrees(t.state) <==> Agrees(s.state))
    decreases steps
  {
    hide Inv, Enabled, Apply, Interferes, LogOf, Visible;
    assert Attached(s.state) by { InvParts(s); }
    if steps != [] {
      var step, next := steps[0], Apply(s, steps[0]);
      RacingStep(s, step);
      RacingStepIsVisible(s, step);
      if step.Push? {
        SameTextIffAppended(Visible(s.state), LogOf(s.state).active, step.entry);
      }
      ApplyKeepsInv(s, step);
      AgreementLasts(next, steps[1..], t);
    }
  }

  lemma {:induction false} RacingGrows(s: Live, steps: seq<Step>, t: Live)
    requires Inv(s) && !s.state.poisoned && RacingRun(s, steps, t)
    ensures Inv(t) && !t.state.poisoned && t.flights == s.flights && Runs(s, steps, t)
    ensures t.state.history == s.state.history + EntriesOf(steps)
    ensures Attached(t.state) && LogOf(t.state).active == LogOf(s.state).active + EntriesOf(steps)
    ensures s.state.current.Some? ==> t.state.current.Some?
    decreases steps
  {
    hide Inv, Enabled, Apply, Interferes, LogOf;
    assert Attached(s.state) by { InvParts(s); }
    if steps != [] {
      var next := Apply(s, steps[0]);
      var entries := if steps[0].Push? then [steps[0].entry] else [];
      RacingStep(s, steps[0]);
      ApplyKeepsInv(s, steps[0]);
      RacingGrows(next, steps[1..], t);
      assert s.state.history + entries + EntriesOf(steps[1..]) == s.state.history + (entries + EntriesOf(steps[1..]));
      assert LogOf(s.state).active + entries + EntriesOf(steps[1..]) == LogOf(s.state).active + (entries + EntriesOf(steps[1..]));
    }
  }

  // ---------------------------------------------------------------- the discipline

  /**
   What the single worker guarantees for threshold and overflow compaction, and what manual and
   model-downshift compaction rely on: a snapshot holds no retry entries; until the compaction has ended
   nothing is appended, no other one begins and no other session is attached; and no session is switched
   under a running turn loop.
   */
  predicate Disciplined(s: Live, step: Step) {
    && (s.flights != map[] ==>
          !step.Push? && !step.PushEphemeral? && !step.NewSession? && !step.Resume? && !step.TakeSnapshot?)
    && (step.TakeSnapshot? || step.NewSession? || step.Resume? ==> s.state.ephemeral == 0)
  }

  ghost predicate DisciplinedRuns(s: Live, steps: seq<Step>, t: Live)
    decreases steps
  {
    if steps == [] then s == t
    else
      && Enabled(s, steps[0]) && Disciplined(s, steps[0])
      && DisciplinedRuns(Apply(s, steps[0]), steps[1..], t)
  }

  lemma {:induction false} DisciplinedRunIsRun(s: Live, steps: seq<Step>, t: Live)
    requires DisciplinedRuns(s, steps, t)
    ensures Runs(s, steps, t)
    decreases steps
  {
    hide Enabled, Apply, Disciplined;
    if steps != [] {
      DisciplinedRunIsRun(Apply(s, steps[0]), steps[1..], t);
    }
  }

  /** No compaction is under way, no retry is counted, and log and live agree. */
  ghost predicate Settled(s: Live) {
    && s.flights == map[] && s.state.ephemeral == 0
    && (!s.state.poisoned ==> Attached(s.state) && Agrees(s.state))
  }

  /** Anything may have happened before `a`; from there on the discipline is kept. */
  ghost predicate DisciplinedSince(before: seq<Step>, a: Live, steps: seq<Step>, t: Live) {
    Runs(Initial, before, a) && Settled(a) && DisciplinedRuns(a, steps, t)
  }

  lemma SettledAtFirst()
    ensures Settled(Initial)
  {
  }

  /**
   Any switch settles a conversation, whatever happened before, poisoning and split histories included:
   unless a compaction is under way or the turn loop still counts retries. The end of the process always does.
   */
  lemma SwitchSettles(s: Live, switch: Step)
    requires Enabled(s, switch) && SwitchesSession(switch)
    ensures Settled(Apply(s, switch)) <==> switch.Exit? || (s.flights == map[] && s.state.ephemeral == 0)
  {
    hide Replay;
    assert Visible(Apply(s, switch).state.(ephemeral := 0)) == Apply(s, switch).state.active;
  }

  // ---------------------------------------------------------------- what replay makes of a file

  /** One entry in front of the rest of the transcript. */
  ghost predicate ShowsFrom(loaded: Loaded, front: Entry, k: nat) {
    k <= |loaded.history| && loaded.active == [front] + loaded.history[k..]
  }

  /** A replayed active history is the transcript, or one entry in front of the rest of it. */
  lemma {:induction false} ReplayedShape(model: Option<string>, lines: seq<Line>) returns (front: Entry, k: nat)
    ensures
      var loaded := Replay(model, lines);
      loaded.active == loaded.history || ShowsFrom(loaded, front, k)
  {
    front, k := SummaryEntry(""), 0;
    if lines != [] {
      var before, last := lines[..|lines| - 1], lines[|lines| - 1];
      front, k := ReplayedShape(model, before);
      if Unreadable !in before && last.Line? && last.record.Some? {
        var past := Replay(model, before);
        match last.record.value
        case HistoryEntry(entry) =>
          if k <= |past.history| {
            assert (past.history + [entry])[k..] == past.history[k..] + [entry];
          }
        case Compaction(checkpoint) =>
          front := SummaryEntry(checkpoint.summary);
          k := if checkpoint.firstKept <= |past.history| then checkpoint.firstKept else |past.history|;
        case _ =>
      }
    }
  }

  function Kept(flight: Flight): seq<Entry>
    requires Sound(flight)
  {
    flight.snapshot[flight.firstKept..]
  }

  /** The last `n` entries of a transcript that has so many. */
  function Last(history: seq<Entry>, n: nat): seq<Entry>
    requires n <= |history|
  {
    history[|history| - n..]
  }

  /**
   What a compaction of such an active history keeps are the last entries of the transcript: the
   subtraction that computes the index is exact.
   */
  lemma KeptIsLast(model: Option<string>, lines: seq<Line>, snapshot: seq<Entry>, firstKept: nat)
    requires SameText(snapshot, Replay(model, lines).active) && 1 <= firstKept <= |snapshot|
    ensures
      var history, kept := Replay(model, lines).history, snapshot[firstKept..];
      && |kept| <= |history| && SameText(kept, Last(history, |kept|))
      && FirstKeptIndex(|history|, |snapshot|, firstKept) == |history| - |kept|
  {
    hide Replay, SameText;
    var loaded := Replay(model, lines);
    var front, k := ReplayedShape(model, lines);
    SameTextSameLength(snapshot, loaded.active);
    SameTextSlice(snapshot, loaded.active, firstKept, |snapshot|);
    assert snapshot[firstKept..|snapshot|] == snapshot[firstKept..];
    assert loaded.active[firstKept..|snapshot|] == Last(loaded.history, |snapshot| - firstKept);
  }

  // ---------------------------------------------------------------- invariant of disciplined runs

  /** The result that is in the log but not installed yet. */
  function Due(s: Live): Option<Plan> {
    if s.state.slot.Some? && s.state.slot.value in s.flights && s.flights[s.state.slot.value].stage.Logged?
    then Some(s.flights[s.state.slot.value].stage.plan) else None
  }

  /** What the provider is shown, or is about to be shown because its checkpoint is already in the log. */
  function Shown(s: Live): seq<Entry> {
    if Due(s).Some? then Due(s).value.projected else Visible(s.state)
  }

  /** The flight is about the active history, and its plan says what its checkpoint will replay to. */
  ghost predicate FlightFits(s: State, flight: Flight) {
    && (!flight.stage.Ended? ==> SameText(flight.snapshot, s.active))
    && (flight.stage.Measured? || flight.stage.Logged? ==>
          SameText(flight.stage.plan.projected, ProjectedHistory(s.history, flight.stage.plan.checkpoint)))
  }

  /** At most one compaction is under way, and never among retries. */
  ghost predicate Alone(s: Live) {
    && (s.flights != map[] ==> s.state.ephemeral == 0)
    && (forall id, other | id in s.flights && other in s.flights :: id == other)
    && s.state.ephemeral <= |s.state.active|
  }

  ghost predicate ShownAgrees(s: Live) {
    !s.state.poisoned ==>
      && Attached(s.state) && SameText(Shown(s), LogOf(s.state).active)
      && forall id <- s.flights :: FlightFits(s.state, s.flights[id])
  }

  ghost predicate DiscInv(s: Live) {
    Inv(s) && Alone(s) && ShownAgrees(s)
  }

  lemma StepKeepsAlone(s: Live, step: Step)
    requires Alone(s) && Enabled(s, step) && Disciplined(s, step)
    ensures Alone(Apply(s, step))
  {
    hide SnapshotOf, MeasuredPlan, Erased, Replay;
  }

  /** The steps that are no part of a compaction: what is shown and what is logged move together. */
  lemma RacingStepKeepsDisc(s: Live, step: Step)
    requires DiscInv(s) && Enabled(s, step) && Disciplined(s, step) && Interferes(s, step) && !s.state.poisoned
    ensures ShownAgrees(Apply(s, step))
  {
    hide Inv, Visible, LogOf, FlightFits, Fails;
    var t := Apply(s, step);
    RacingStep(s, step);
    RacingStepIsVisible(s, step);
    if step.Push? {
      SameTextIffAppended(Visible(s.state), LogOf(s.state).active, step.entry);
    }
    forall id | id in s.flights ensures FlightFits(t.state, t.flights[id]) {
      FlightStaysFit(s, step, s.flights[id]);
    }
  }

  lemma FlightStaysFit(s: Live, step: Step, flight: Flight)
    requires FlightFits(s.state, flight) && Enabled(s, step) && s.state.ephemeral == 0
    requires step.DropEphemeral? || step.ClearImages? || step.SetTodos? || step.Select?
    ensures FlightFits(Apply(s, step).state, flight)
  {
    hide ProjectedHistory;
    if step.ClearImages? {
      ErasingTwice(s.state.active);
    }
    assert s.state.active[..|s.state.active|] == s.state.active;
  }

  lemma SwitchKeepsDisc(s: Live, step: Step)
    requires DiscInv(s) && Enabled(s, step) && Disciplined(s, step) && SwitchesSession(step)
    ensures ShownAgrees(Apply(s, step))
  {
    hide Replay, FlightInv, SlotInv;
    var t := Apply(s, step);
    assert Visible(t.state) == t.state.active;
  }

  /** What is measured: the index is exact, so the checkpoint will replay to the projected history. */
  lemma MeasureFits(s: Live, id: FlightId, summary: string, estimate: seq<Entry> -> nat)
    requires DiscInv(s) && !s.state.poisoned && Enabled(s, Measure(id, Some(summary), estimate))
    ensures
      var plan := PlanOf(s.state.history, s.flights[id], summary, estimate);
      SameText(plan.projected, ProjectedHistory(s.state.history, plan.checkpoint))
    ensures ActiveIsLogged(s, id)
  {
    hide Replay, SameText, PreservedTailStart;
    var flight := s.flights[id];
    assert FlightInv(s.state.files, flight) && FlightFits(s.state, flight);
    FlightIsAboutLog(s, id);
    var model, lines := FileOf(s.state);
    KeptIsLast(model, lines, flight.snapshot, flight.firstKept);
    var kept := flight.snapshot[flight.firstKept..];
    SameTextFront(SummaryEntry(summary), kept, Last(s.state.history, |kept|));
  }

  /** The snapshot that is being compacted is what the log replays to. */
  ghost predicate ActiveIsLogged(s: Live, id: FlightId)
    requires Attached(s.state) && id in s.flights
  {
    SameText(s.flights[id].snapshot, LogOf(s.state).active)
  }

  lemma FlightIsAboutLog(s: Live, id: FlightId)
    requires DiscInv(s) && !s.state.poisoned && id in s.flights && !s.flights[id].stage.Ended? && !s.flights[id].stage.Logged?
    ensures Attached(s.state) && ActiveIsLogged(s, id) && LogOf(s.state).history == s.state.history
  {
    hide Replay, PreservedTailStart, ProjectedHistory;
    assert FlightFits(s.state, s.flights[id]);
    assert Due(s).None?;
    assert Visible(s.state) == s.state.active;
  }

  /** A conversation without a session replays like an empty file. */
  lemma FileOf(s: State) returns (model: Option<string>, lines: seq<Line>)
    requires Attached(s)
    ensures LogOf(s) == Replay(model, lines)
  {
    model, lines := None, [];
    if s.current.Some? {
      model, lines := s.files[s.current.value.id].model, s.files[s.current.value.id].lines;
    }
  }

  lemma CompactionStepKeepsDisc(s: Live, step: Step)
    requires DiscInv(s) && Enabled(s, step) && Disciplined(s, step)
    requires step.TakeSnapshot? || step.TakeSlot? || step.Measure? || step.Install? || step.Release?
    ensures ShownAgrees(Apply(s, step))
  {
    hide Replay, SameText, PreservedTailStart, ProjectedHistory, LogOf, FlightInv;
    var t := Apply(s, step);
    if !s.state.poisoned {
      InvParts(s);
      if step.Measure? && step.summary.Some? {
        MeasureFits(s, step.id, step.summary.value, step.estimate);
      }
      if step.TakeSnapshot? {
        SameTextIsReflexive(s.state.active);
      }
      forall id | id in t.flights ensures FlightFits(t.state, t.flights[id]) {
        if id in s.flights {
          assert FlightFits(s.state, s.flights[id]);
        }
      }
      LogIgnoresActive(s.state, t.state);
      if step.Install? {
        assert s.state.slot == Some(step.id);
        assert Visible(t.state) == t.state.active;
      }
    }
  }

  lemma LogIgnoresActive(s: State, t: State)
    requires Synced(s) && t.files == s.files && t.current == s.current && t.history == s.history
    ensures Attached(t) && LogOf(t) == LogOf(s) && LogOf(t).history == t.history
  {
  }

  /** A checkpoint that is logged as the last record makes the log replay to its projection. */
  lemma LoggedProjection(s: Live, id: FlightId, io: Io)
    requires Inv(s) && !s.state.poisoned && Enabled(s, LogCheckpoint(id, io)) && !AppendFails(s.state, io)
    ensures
      var t := CheckpointLogged(s, id, io);
      && t.state.current.Some? && Attached(t.state) && !t.state.poisoned
      && t.state.history == s.state.history && t.state.active == s.state.active && t.state.slot == s.state.slot
      && t.state.ephemeral == s.state.ephemeral
      && t.flights == s.flights[id := s.flights[id].(stage := t.flights[id].stage)]
      && t.flights[id].stage.Logged? && t.flights[id].stage.plan == s.flights[id].stage.plan
      && LogOf(t.state).active == ProjectedHistory(s.state.history, s.flights[id].stage.plan.checkpoint)
  {
    hide Replay, FlightInv, SlotInv;
    if s.state.current.Some? {
      assert FileInv(s.state.files, s.state.current.value.id);
    }
    AppendedReplays(s.state, Record.Compaction(s.flights[id].stage.plan.checkpoint), io);
  }

  lemma LoggingKeepsDisc(s: Live, id: FlightId, io: Io)
    requires DiscInv(s) && Enabled(s, LogCheckpoint(id, io))
    ensures ShownAgrees(CheckpointLogged(s, id, io))
  {
    hide Replay, SameText, PreservedTailStart, ProjectedHistory, LogOf, FlightInv, Appended;
    LoggingStep(s, id, io);
    if !s.state.poisoned && !AppendFails(s.state, io) {
      LoggedProjection(s, id, io);
      assert FlightFits(s.state, s.flights[id]);
    } else {
      FailureIsPoison(s.state, Record.Compaction(s.flights[id].stage.plan.checkpoint), io);
    }
  }

  lemma FailureIsPoison(s: State, record: Record, io: Io)
    requires Attached(s) && (s.poisoned || AppendFails(s, io))
    ensures Appended(s, record, io).poisoned
  {
  }

  lemma StepKeepsDisc(s: Live, step: Step)
    requires DiscInv(s) && Enabled(s, step) && Disciplined(s, step)
    ensures DiscInv(Apply(s, step))
  {
    hide DiscInv, Inv, Alone, ShownAgrees, Disciplined;
    assert Inv(s) && Alone(s) by { DiscParts(s); }
    ApplyKeepsInv(s, step);
    StepKeepsAlone(s, step);
    if SwitchesSession(step) {
      SwitchKeepsDisc(s, step);
    } else if step.LogCheckpoint? {
      LoggingKeepsDisc(s, step.id, step.io);
    } else if IsCompactionStep(step) {
      CompactionStepKeepsDisc(s, step);
    } else if s.state.poisoned || Fails(s, step) {
      PoisonStays(s, step);
    } else {
      RacingStepKeepsDisc(s, step);
    }
    assert DiscInv(Apply(s, step)) by { DiscParts(Apply(s, step)); }
  }

  lemma DiscParts(s: Live)
    ensures DiscInv(s) <==> Inv(s) && Alone(s) && ShownAgrees(s)
  {
  }

  lemma PoisonStays(s: Live, step: Step)
    requires Enabled(s, step) && !SwitchesSession(step) && !IsCompactionStep(step) && (s.state.poisoned || Fails(s, step))
    ensures ShownAgrees(Apply(s, step))
  {
    hide Replay;
  }

  lemma {:induction false} RunKeepsDisc(s: Live, steps: seq<Step>, t: Live)
    requires DiscInv(s) && DisciplinedRuns(s, steps, t)
    ensures DiscInv(t)
    decreases steps
  {
    hide DiscInv, Enabled, Apply, Disciplined;
    if steps != [] {
      StepKeepsDisc(s, steps[0]);
      RunKeepsDisc(Apply(s, steps[0]), steps[1..], t);
    }
  }

  lemma ReachableDisc(before: seq<Step>, a: Live, steps: seq<Step>, t: Live)
    requires DisciplinedSince(before, a, steps, t)
    ensures DiscInv(t) && Runs(Initial, before + steps, t)
  {
    hide Inv, Replay, SameText, Enabled, Apply;
    ReachableInv(before, a);
    assert DiscInv(a);
    RunKeepsDisc(a, steps, t);
    DisciplinedRunIsRun(a, steps, t);
    RunsCompose(Initial, before, a, steps, t);
  }

  // ---------------------------------------------------------------- results over disciplined runs

  /**
   Replay refines the active history: let anything happen until a settled state, for one right after a
   switch, and keep the discipline from there. As long as no write has failed the log replays to what the
   provider is shown, up to image attachments and the retry entries at the end. A result that is logged but
   not installed yet counts as shown.
   */
  lemma ReplayRefinesLive(before: seq<Step>, a: Live, steps: seq<Step>, t: Live)
    requires DisciplinedSince(before, a, steps, t) && !t.state.poisoned
    ensures t.state.ephemeral <= |t.state.active|
    ensures t.state.current.None? ==> Shown(t) == []
    ensures
      t.state.current.Some? ==>
        && t.state.current.value.id in t.state.files
        && var loaded := LoadedOf(t.state.files, t.state.current.value.id);
           && loaded.history == t.state.history && loaded.todos == t.state.todos
           && SameText(Shown(t), loaded.active)
  {
    hide Replay, SameText;
    ReachableDisc(before, a, steps, t);
    ReplayRefinesTranscript(before + steps, t);
    if t.state.current.None? {
      SameTextSameLength(Shown(t), []);
    }
  }

  /** After a failed write the log also still replays to what the provider was shown at the last success. */
  lemma FailedWriteKeepsTheShownHistory(
      before: seq<Step>, a: Live, steps: seq<Step>, s: Live, step: Step, after: seq<Step>, t: Live)
    requires DisciplinedSince(before, a, steps, s) && !s.state.poisoned
    requires Enabled(s, step) && Fails(s, step)
    requires Runs(Apply(s, step), after, t)
    requires forall i | 0 <= i < |after| :: !SwitchesSession(after[i])
    ensures Attached(t.state) && SameText(Shown(s), LogOf(t.state).active)
  {
    hide Replay, Apply, Enabled, SameText;
    ReachableDisc(before, a, steps, s);
    FailedWriteKeepsTheLog(before + steps, s, step, after, t);
    if s.state.current.None? && t.state.current.Some? {
      EmptyFileReplays(t.state.files[t.state.current.value.id].model);
    }
  }

  // ---------------------------------------------------------------- checkpoints of disciplined runs

  /** The checkpoint was taken at the second-to-last user entry of the transcript of its time. */
  ghost predicate Faithful(history: seq<Entry>, checkpoint: Checkpoint) {
    && checkpoint.historyLen <= |history|
    && PreservedTailStart(history[..checkpoint.historyLen]) == Some(checkpoint.firstKept)
  }

  predicate Ascending(checkpoints: seq<Checkpoint>) {
    forall i, j | 0 <= i < j < |checkpoints| :: checkpoints[i].firstKept <= checkpoints[j].firstKept
  }

  function LastOf(checkpoints: seq<Checkpoint>): Option<Checkpoint> {
    if checkpoints == [] then None else Some(checkpoints[|checkpoints| - 1])
  }

  ghost predicate LoadedInv(loaded: Loaded) {
    && loaded.active == Projection(loaded.history, LastOf(loaded.compactions))
    && GoodCheckpoint(loaded.history, LastOf(loaded.compactions))
    && (forall c <- loaded.compactions :: Faithful(loaded.history, c))
    && Ascending(loaded.compactions)
  }

  ghost predicate FilesGood(files: map<SessionId, SessionFile>) {
    forall id <- files :: LoadedInv(LoadedOf(files, id))
  }

  /** A checkpoint fits a log when it was computed from the transcript that log replays to. */
  ghost predicate RecordFits(loaded: Loaded, record: Record) {
    record.Compaction? ==>
      var last := LastOf(loaded.compactions);
      && record.checkpoint.historyLen == |loaded.history|
      && PreservedTailStart(loaded.history) == Some(record.checkpoint.firstKept)
      && 1 <= record.checkpoint.firstKept
      && (last.Some? ==> last.value.firstKept <= record.checkpoint.firstKept)
  }

  /** What was measured fits the log it will go to. */
  ghost predicate PlansFit(s: Live)
    requires Attached(s.state)
  {
    forall id <- s.flights ::
      s.flights[id].stage.Measured? ==> RecordFits(LogOf(s.state), Record.Compaction(s.flights[id].stage.plan.checkpoint))
  }

  ghost predicate CheckpointInv(s: Live) {
    FilesGood(s.state.files) && (!s.state.poisoned ==> Attached(s.state) && PlansFit(s))
  }

  lemma EntryKeepsLoadedInv(loaded: Loaded, entry: Entry)
    requires LoadedInv(loaded)
    ensures LoadedInv(Replayed(loaded, HistoryEntry(entry)))
  {
    var next := Replayed(loaded, HistoryEntry(entry));
    GoodCheckpointGrows(loaded.history, LastOf(loaded.compactions), entry);
    forall c | c in loaded.compactions ensures Faithful(next.history, c) {
      assert next.history[..c.historyLen] == loaded.history[..c.historyLen];
    }
  }

  lemma AscendingGrows(checkpoints: seq<Checkpoint>, next: Checkpoint)
    requires Ascending(checkpoints)
    requires checkpoints != [] ==> checkpoints[|checkpoints| - 1].firstKept <= next.firstKept
    ensures Ascending(checkpoints + [next])
  {
    forall i | 0 <= i < |checkpoints| ensures checkpoints[i].firstKept <= next.firstKept {
      assert i < |checkpoints| - 1 ==> checkpoints[i].firstKept <= checkpoints[|checkpoints| - 1].firstKept;
    }
  }

  lemma CheckpointKeepsLoadedInv(loaded: Loaded, checkpoint: Checkpoint)
    requires LoadedInv(loaded) && RecordFits(loaded, Compaction(checkpoint))
    ensures LoadedInv(Replayed(loaded, Compaction(checkpoint)))
  {
    hide Users, LastUser, PreservedTailStart;
    PreservedTailHoldsTwoTurns(loaded.history);
    assert Faithful(loaded.history, checkpoint) by {
      assert loaded.history[..|loaded.history|] == loaded.history;
    }
    AscendingGrows(loaded.compactions, checkpoint);
    assert LastOf(loaded.compactions + [checkpoint]) == Some(checkpoint);
  }

  lemma RecordKeepsLoadedInv(loaded: Loaded, record: Record)
    requires LoadedInv(loaded) && RecordFits(loaded, record)
    ensures LoadedInv(Replayed(loaded, record))
  {
    match record
    case HistoryEntry(entry) => EntryKeepsLoadedInv(loaded, entry);
    case Compaction(checkpoint) => CheckpointKeepsLoadedInv(loaded, checkpoint);
    case _ =>
  }

  lemma RenumberedLoadedInv(loaded: Loaded, nextOrdinal: nat)
    requires LoadedInv(loaded)
    ensures LoadedInv(loaded.(nextOrdinal := nextOrdinal))
  {
  }

  /** The attached session, or the one that is created, has been appended to. */
  lemma AppendKeepsGoodFile(s: State, record: Record, io: Io)
    requires Attached(s) && !s.poisoned && !AppendFails(s, io) && FilesGood(s.files)
    requires s.current.Some? ==>
               FileInv(s.files, s.current.value.id) && s.current.value.nextOrdinal == LogOf(s).nextOrdinal
    requires RecordFits(LogOf(s), record)
    ensures
      var t := Appended(s, record, io);
      t.current.Some? && Attached(t) && LoadedInv(LogOf(t))
  {
    hide Replay, LoadedInv;
    var logged := if s.current.Some? then LogOf(s) else EmptySession(io.model);
    var renumbered := logged.(nextOrdinal := logged.nextOrdinal + 1);
    if s.current.None? {
      EmptyIsGood(io.model);
    }
    RenumberedLoadedInv(logged, logged.nextOrdinal + 1);
    RecordKeepsLoadedInv(renumbered, record);
    AppendedReplays(s, record, io);
  }

  lemma EmptyIsGood(model: Option<string>)
    ensures LoadedInv(EmptySession(model))
  {
  }

  lemma AppendKeepsFilesGood(s: State, record: Record, io: Io)
    requires Attached(s) && Fresh(s, io) && FilesGood(s.files) && FilesInv(s.files)
    requires !s.poisoned && s.current.Some? ==> s.current.value.nextOrdinal == LogOf(s).nextOrdinal
    requires !s.poisoned ==> RecordFits(LogOf(s), record)
    ensures FilesGood(Appended(s, record, io).files)
  {
    hide Replay, LoadedInv, RecordFits;
    var t := Appended(s, record, io);
    if s.current.Some? {
      assert FileInv(s.files, s.current.value.id);
    }
    if !s.poisoned && !AppendFails(s, io) {
      AppendKeepsGoodFile(s, record, io);
    }
    EmptyIsGood(io.model);
    EmptyFileReplays(io.model);
  }

  lemma StepKeepsFilesGood(s: Live, step: Step)
    requires Inv(s) && CheckpointInv(s) && Enabled(s, step)
    ensures FilesGood(Apply(s, step).state.files)
  {
    hide Replay, FilesGood, Appended, PreservedTailStart, LastOf, FlightInv, SlotInv, SnapshotOf, MeasuredPlan;
    match step
    case Push(entry, io) =>
      AppendKeepsFilesGood(s.state.(history := s.state.history + [entry], active := s.state.active + [entry]), HistoryEntry(entry), io);
    case SetTodos(todos, io) => AppendKeepsFilesGood(s.state.(todos := todos), TodoListUpdate(todos), io);
    case Select(record, io) =>
      if s.state.current.Some? {
        AppendKeepsFilesGood(s.state, record, io);
      }
    case LogCheckpoint(id, io) =>
      AppendKeepsFilesGood(s.state, Record.Compaction(s.flights[id].stage.plan.checkpoint), io);
    case _ =>
  }

  /** The index that is measured is the tail start of the transcript, behind all earlier ones. */
  lemma MeasuredFitsLog(s: Live, id: FlightId, summary: string, estimate: seq<Entry> -> nat)
    requires DiscInv(s) && CheckpointInv(s) && !s.state.poisoned && Enabled(s, Measure(id, Some(summary), estimate))
    ensures RecordFits(LogOf(s.state), Record.Compaction(PlanOf(s.state.history, s.flights[id], summary, estimate).checkpoint))
  {
    hide Replay, SameText, PreservedTailStart;
    KeptIsCanonicalTail(s, id);
  }

  lemma KeptIsCanonicalTail(s: Live, id: FlightId)
    requires DiscInv(s) && CheckpointInv(s) && !s.state.poisoned
    requires id in s.flights && (s.flights[id].stage.Waiting? || s.flights[id].stage.Summarizing?)
    ensures Sound(s.flights[id])
    ensures
      var Flight(_, snapshot, firstKept, _, _) := s.flights[id];
      var (history, last) := (s.state.history, LastOf(LogOf(s.state).compactions));
      var index := FirstKeptIndex(|history|, |snapshot|, firstKept);
      && LogOf(s.state).history == history
      && PreservedTailStart(history) == Some(index) && 1 <= index && index == |history| - |Kept(s.flights[id])|
      && (last.Some? ==> last.value.firstKept <= index)
  {
    hide Replay, SameText, PreservedTailStart, Users;
    var flight := s.flights[id];
    assert FlightInv(s.state.files, flight);
    FlightIsAboutLog(s, id);
    LogIsGood(s.state);
    IndexIsCanonicalTailStart(s.state.history, LastOf(LogOf(s.state).compactions), flight.snapshot, flight.firstKept);
  }

  lemma LogIsGood(s: State)
    requires FilesGood(s.files) && Attached(s)
    ensures LoadedInv(LogOf(s))
  {
    hide Replay;
    if s.current.Some? {
      assert LoadedInv(LoadedOf(s.files, s.current.value.id));
    }
  }

  lemma StepKeepsPlansFit(s: Live, step: Step)
    requires DiscInv(s) && CheckpointInv(s) && Enabled(s, step) && Disciplined(s, step)
    ensures var t := Apply(s, step); !t.state.poisoned ==> Attached(t.state) && PlansFit(t)
  {
    hide Replay, FilesGood, FlightInv, RecordFits, ShownAgrees, LogOf, Users, PreservedTailStart;
    var t := Apply(s, step);
    if !t.state.poisoned && !SwitchesSession(step) {
      StaysUnpoisoned(s, step);
      if step.LogCheckpoint? {
        LoggedProjection(s, step.id, step.io);
      } else if IsCompactionStep(step) {
        LogIgnoresActive(s.state, t.state);
        if step.Measure? && step.summary.Some? {
          MeasuredFitsLog(s, step.id, step.summary.value, step.estimate);
        }
      } else {
        RacingStep(s, step);
        FitIgnoresRest(s, t);
      }
    }
  }

  lemma StaysUnpoisoned(s: Live, step: Step)
    requires Enabled(s, step) && !SwitchesSession(step) && !Apply(s, step).state.poisoned
    ensures !s.state.poisoned && !Fails(s, step)
  {
    hide Replay;
  }

  lemma FitIgnoresRest(s: Live, t: Live)
    requires Attached(s.state) && Attached(t.state) && PlansFit(s) && t.flights == s.flights
    requires s.flights != map[] ==> LogOf(t.state).history == LogOf(s.state).history
    requires LogOf(t.state).compactions == LogOf(s.state).compactions
    ensures PlansFit(t)
  {
    hide LogOf;
  }

  lemma {:induction false} RunKeepsCheckpoints(s: Live, steps: seq<Step>, t: Live)
    requires DiscInv(s) && CheckpointInv(s) && DisciplinedRuns(s, steps, t)
    ensures DiscInv(t) && CheckpointInv(t)
    decreases steps
  {
    hide DiscInv, FilesGood, PlansFit, Enabled, Apply, Disciplined;
    if steps != [] {
      StepKeepsDisc(s, steps[0]);
      assert Inv(s) by { DiscParts(s); }
      StepKeepsFilesGood(s, steps[0]);
      StepKeepsPlansFit(s, steps[0]);
      RunKeepsCheckpoints(Apply(s, steps[0]), steps[1..], t);
    }
  }

  lemma ReachableCheckpoints(steps: seq<Step>, t: Live)
    requires DisciplinedRuns(Initial, steps, t)
    ensures DiscInv(t) && CheckpointInv(t)
  {
    RunKeepsCheckpoints(Initial, steps, t);
  }

  /** Exactly two user turns followed the entry the checkpoint points at when it was taken. */
  ghost predicate KeptTwoTurns(history: seq<Entry>, checkpoint: Checkpoint) {
    && checkpoint.firstKept < checkpoint.historyLen <= |history|
    && history[checkpoint.firstKept].role == User
    && Users(history[checkpoint.firstKept..checkpoint.historyLen]) == 2
  }

  lemma FaithfulKeptTwoTurns(history: seq<Entry>, checkpoint: Checkpoint)
    requires Faithful(history, checkpoint)
    ensures KeptTwoTurns(history, checkpoint)
  {
    hide Users, LastUser, PreservedTailStart;
    var past := history[..checkpoint.historyLen];
    PreservedTailHoldsTwoTurns(past);
    assert past[checkpoint.firstKept..] == history[checkpoint.firstKept..checkpoint.historyLen];
    assert history[checkpoint.firstKept] == past[checkpoint.firstKept];
  }

  /**
   Every checkpoint in every log points at the second-to-last user entry of the canonical transcript of
   its time, so that exactly two user turns were kept, and the positions never go back.
   */
  lemma CheckpointsPointAtTheTail(steps: seq<Step>, t: Live, id: SessionId, i: nat, j: nat)
    requires DisciplinedRuns(Initial, steps, t) && id in t.state.files
    requires i <= j < |LoadedOf(t.state.files, id).compactions|
    ensures
      var loaded := LoadedOf(t.state.files, id);
      && KeptTwoTurns(loaded.history, loaded.compactions[i])
      && KeptTwoTurns(loaded.history, loaded.compactions[j])
      && loaded.compactions[i].firstKept <= loaded.compactions[j].firstKept
  {
    hide Replay, LastUser, PreservedTailStart, Users, DiscInv, PlansFit;
    ReachableCheckpoints(steps, t);
    var loaded := LoadedOf(t.state.files, id);
    assert LoadedInv(loaded);
    assert Faithful(loaded.history, loaded.compactions[i]) && Faithful(loaded.history, loaded.compactions[j]);
    FaithfulKeptTwoTurns(loaded.history, loaded.compactions[i]);
    FaithfulKeptTwoTurns(loaded.history, loaded.compactions[j]);
  }

  // ---------------------------------------------------------------- without the discipline

  lemma SameTextDropFront(entry: Entry, a: seq<Entry>, b: seq<Entry>)
    ensures SameText([entry] + a, [entry] + b) <==> SameText(a, b)
  {
    if SameText(a, b) {
      SameTextFront(entry, a, b);
    }
    if SameText([entry] + a, [entry] + b) {
      SameTextSlice([entry] + a, [entry] + b, 1, 1 + |a|);
      assert ([entry] + a)[1..1 + |a|] == a;
      assert ([entry] + b)[1..1 + |a|] == b;
    }
  }

  /**
   Whatever happened before a checkpoint is logged, and whatever interferes until its result is installed:
   the provider is shown the summary and the kept entries of the snapshot, the log replays to the summary,
   the transcript from the recorded index on and what came after. The two agree exactly when these read
   the same; and once the retries that are still counted have been dropped, which cuts them from the kept
   entries, exactly when what is left of these does. That stays so, by `AgreementLasts`.
   */
  lemma InstallAgreesIff(before: seq<Step>, s: Live, id: FlightId, io: Io, after: seq<Step>, u: Live)
    requires Runs(Initial, before, s) && !s.state.poisoned
    requires Enabled(s, LogCheckpoint(id, io)) && !AppendFails(s.state, io)
    requires RacingRun(Apply(s, LogCheckpoint(id, io)), after, u)
    ensures Enabled(u, Install(id)) && Sound(s.flights[id])
    ensures
      var t := Apply(u, Install(id)).state;
      var checkpoint := s.flights[id].stage.plan.checkpoint;
      var rest := Skip(s.state.history, checkpoint.firstKept) + EntriesOf(after);
      && t.current.Some? && Attached(t) && !t.poisoned
      && LogOf(t).history == t.history == s.state.history + EntriesOf(after)
      && t.active == [SummaryEntry(checkpoint.summary)] + Kept(s.flights[id])
      && LogOf(t).active == [SummaryEntry(checkpoint.summary)] + rest
      && (SameText(t.active, LogOf(t).active) <==> SameText(Kept(s.flights[id]), rest))
      && (Agrees(t) <==> SameText(Cut(Kept(s.flights[id]), u.state.ephemeral), rest))
      && u.state.ephemeral <= 2 <= |Kept(s.flights[id])|
  {
    hide Inv, FlightInv, Replay, Users, LastUser, PreservedTailStart, LogOf, SameText, Appended;
    var logged := Apply(s, LogCheckpoint(id, io));
    var plan := s.flights[id].stage.plan;
    ReachableInv(before, s);
    MeasuredIsCompacted(s, id);
    ApplyKeepsInv(s, LogCheckpoint(id, io));
    LoggedProjection(s, id, io);
    RacingGrows(logged, after, u);
    InvParts(u);
    LogIgnoresActive(u.state, Apply(u, Install(id)).state);
    var front, kept, skipped := SummaryEntry(plan.checkpoint.summary), Kept(s.flights[id]),
                                Skip(s.state.history, plan.checkpoint.firstKept);
    SummaryAndRest(front, kept, skipped, EntriesOf(after));
    KeptHoldsTwo(s, id);
    AtMostTwoRetries(Initial, before, s);
    AtMostTwoRetries(logged, after, u);
    assert Cut([front] + kept, u.state.ephemeral) == [front] + Cut(kept, u.state.ephemeral);
    SummaryAndRest(front, Cut(kept, u.state.ephemeral), skipped, EntriesOf(after));
  }

  /** The turn loop counts no retries or one pair of them. */
  lemma {:induction false} AtMostTwoRetries(s: Live, steps: seq<Step>, t: Live)
    requires Runs(s, steps, t) && s.state.ephemeral <= 2
    ensures t.state.ephemeral <= 2
    decreases steps
  {
    hide Replay, SnapshotOf, MeasuredPlan;
    if steps != [] {
      AtMostTwoRetries(Apply(s, steps[0]), steps[1..], t);
    }
  }

  lemma KeptHoldsTwo(s: Live, id: FlightId)
    requires Inv(s) && id in s.flights
    ensures Sound(s.flights[id]) && Users(Kept(s.flights[id])) == 2 && |Kept(s.flights[id])| >= 2
  {
    hide Replay, PreservedTailStart, Users, SlotInv, FilesInv;
    assert FlightInv(s.state.files, s.flights[id]);
    PreservedTailHoldsTwoTurns(s.flights[id].snapshot);
    UsersAreEntries(Kept(s.flights[id]));
  }

  lemma {:induction false} UsersAreEntries(history: seq<Entry>)
    ensures Users(history) <= |history|
  {
    if history != [] {
      UsersAreEntries(history[..|history| - 1]);
    }
  }

  lemma MeasuredIsCompacted(s: Live, id: FlightId)
    requires Inv(s) && id in s.flights && s.flights[id].stage.Measured?
    ensures Sound(s.flights[id])
    ensures
      var plan := s.flights[id].stage.plan;
      plan.projected == [SummaryEntry(plan.checkpoint.summary)] + Kept(s.flights[id])
  {
    hide Replay, PreservedTailStart;
    assert FlightInv(s.state.files, s.flights[id]);
  }

  lemma SummaryAndRest(front: Entry, kept: seq<Entry>, skipped: seq<Entry>, entries: seq<Entry>)
    ensures [front] + skipped + entries == [front] + (skipped + entries)
    ensures SameText([front] + kept, [front] + (skipped + entries)) <==> SameText(kept, skipped + entries)
  {
    SameTextDropFront(front, kept, skipped + entries);
  }

  /**
   What is left of the kept entries reads like the transcript behind the index that was measured on
   `history`, with `more` following. If the transcript has as many entries as were kept: nothing is cut,
   nothing follows and its last entries read like the kept ones. If it is shorter: all of it does, with
   what follows.
   */
  ghost predicate KeptReadsLike(kept: seq<Entry>, retries: nat, history: seq<Entry>, more: seq<Entry>) {
    if |kept| <= |history| then retries == 0 && more == [] && SameText(kept, Last(history, |kept|))
    else SameText(Cut(kept, retries), history + more)
  }

  lemma MeasuredIndexOnGrown(history: seq<Entry>, kept: seq<Entry>, retries: nat, more: seq<Entry>, rest: seq<Entry>)
    requires retries <= |kept|
    ensures
      var index := if |history| < |kept| then 0 else |history| - |kept|;
      SameText(Cut(kept, retries), Skip(history + more, index) + rest) <==> KeptReadsLike(kept, retries, history, more + rest)
  {
    assert history + more + rest == history + (more + rest);
    if |kept| <= |history| {
      var tail := Last(history, |kept|);
      assert Skip(history + more, |history| - |kept|) == tail + more;
      if SameText(Cut(kept, retries), tail + more + rest) {
        SameTextSameLength(Cut(kept, retries), tail + more + rest);
        assert tail + more + rest == tail;
      }
      if more + rest == [] {
        assert tail + more + rest == tail + (more + rest) == tail;
      }
    } else {
      assert Skip(history + more, 0) == history + more;
    }
  }

  /** One compaction from its measurement on: its plan, the interfering runs, and the states between. */
  ghost predicate FinishesAs(
      s: Live, id: FlightId, summary: string, estimate: seq<Entry> -> nat, io: Io,
      untilLogged: seq<Step>, m: Live, untilInstalled: seq<Step>, u: Live)
  {
    && Enabled(s, Measure(id, Some(summary), estimate))
    && MeasuredPlan(s.state.history, s.flights[id], Some(summary), estimate).Some?
    && RacingRun(Apply(s, Measure(id, Some(summary), estimate)), untilLogged, m)
    && Enabled(m, LogCheckpoint(id, io)) && !AppendFails(m.state, io)
    && RacingRun(Apply(m, LogCheckpoint(id, io)), untilInstalled, u)
  }

  /** What is left of the plan when it comes to logging it. */
  lemma MeasuredPlanSurvives(s: Live, id: FlightId, summary: string, estimate: seq<Entry> -> nat, steps: seq<Step>, m: Live)
    requires Inv(s) && !s.state.poisoned && Enabled(s, Measure(id, Some(summary), estimate))
    requires MeasuredPlan(s.state.history, s.flights[id], Some(summary), estimate).Some?
    requires RacingRun(Apply(s, Measure(id, Some(summary), estimate)), steps, m)
    ensures Runs(s, [Measure(id, Some(summary), estimate)] + steps, m) && Inv(m) && !m.state.poisoned
    ensures m.state.history == s.state.history + EntriesOf(steps)
    ensures id in m.flights && m.flights[id].stage == Measured(PlanOf(s.state.history, s.flights[id], summary, estimate))
    ensures id in s.flights && Sound(s.flights[id]) && Sound(m.flights[id]) && Kept(m.flights[id]) == Kept(s.flights[id])
  {
    hide Inv, Replay;
    var step := Measure(id, Some(summary), estimate);
    ApplyKeepsInv(s, step);
    RacingGrows(Apply(s, step), steps, m);
    assert ([step] + steps)[1..] == steps;
  }

  /**
   The exact condition for a whole finish, in any run and after any start: log and live agree at the install
   exactly when the kept entries read like the transcript at the measurement with what is appended since;
   and for good exactly when they do without the retries that are still counted.
   */
  lemma FinishAgreesIff(
      before: seq<Step>, s: Live, id: FlightId, summary: string, estimate: seq<Entry> -> nat, io: Io,
      untilLogged: seq<Step>, m: Live, untilInstalled: seq<Step>, u: Live)
    requires Runs(Initial, before, s) && !s.state.poisoned
    requires FinishesAs(s, id, summary, estimate, io, untilLogged, m, untilInstalled, u)
    ensures Enabled(u, Install(id)) && Sound(s.flights[id])
    ensures
      var t := Apply(u, Install(id)).state;
      var kept, history := Kept(s.flights[id]), s.state.history;
      var more := EntriesOf(untilLogged) + EntriesOf(untilInstalled);
      && t.current.Some? && Attached(t) && !t.poisoned
      && t.history == LogOf(t).history == history + more
      && t.active == [SummaryEntry(summary)] + kept
      && (SameText(t.active, LogOf(t).active) <==> KeptReadsLike(kept, 0, history, more))
      && (Agrees(t) <==> KeptReadsLike(kept, u.state.ephemeral, history, more))
  {
    hide Replay, Users, LastUser, PreservedTailStart, LogOf, SameText, Inv, Enabled, Apply, MeasuredPlan, Runs;
    hide RacingRun, EntriesOf, Agrees, KeptReadsLike, Attached;
    var step := Measure(id, Some(summary), estimate);
    ReachableInv(before, s);
    MeasuredPlanSurvives(s, id, summary, estimate, untilLogged, m);
    RunsCompose(Initial, before, s, [step] + untilLogged, m);
    InstallAgreesIff(before + ([step] + untilLogged), m, id, io, untilInstalled, u);
    var kept, early, late := Kept(s.flights[id]), EntriesOf(untilLogged), EntriesOf(untilInstalled);
    MeasuredIndexOnGrown(s.state.history, kept, 0, early, late);
    MeasuredIndexOnGrown(s.state.history, kept, u.state.ephemeral, early, late);
    assert Cut(kept, 0) == kept && s.state.history + early + late == s.state.history + (early + late);
  }

  /**
   Appends while the summary is being generated. Let a disciplined run from a settled state reach a
   compaction, which then keeps the last entries of the transcript, and let more be appended before it is
   measured: log and live agree exactly when nothing is appended later, and each kept entry reads like the
   one as many positions behind it; and for good exactly when no retries are counted either.
   */
  lemma AppendsDuringCompaction(
      before: seq<Step>, a: Live, calm: seq<Step>, b: Live, id: FlightId, racing: seq<Step>, s: Live,
      summary: string, estimate: seq<Entry> -> nat, io: Io,
      untilLogged: seq<Step>, m: Live, untilInstalled: seq<Step>, u: Live)
    requires DisciplinedSince(before, a, calm, b) && !b.state.poisoned
    requires id in b.flights && b.flights[id].stage.Summarizing?
    requires RacingRun(b, racing, s)
    requires FinishesAs(s, id, summary, estimate, io, untilLogged, m, untilInstalled, u)
    ensures Enabled(u, Install(id)) && Sound(b.flights[id]) && |Kept(b.flights[id])| <= |b.state.history|
    ensures
      var t := Apply(u, Install(id)).state;
      var start, early := |b.state.history| - |Kept(b.flights[id])|, |EntriesOf(racing)|;
      var history := b.state.history + EntriesOf(racing);
      var lucky := && EntriesOf(untilLogged) == [] && EntriesOf(untilInstalled) == []
                   && forall k: nat | start <= k < |b.state.history| :: ReadsLater(history, k, early);
      && t.current.Some? && Attached(t)
      && SameText(t.active, [SummaryEntry(summary)] + b.state.history[start..])
      && (SameText(t.active, LogOf(t).active) <==> lucky)
      && (Agrees(t) <==> lucky && u.state.ephemeral == 0)
  {
    hide Replay, SameText, LogOf, Inv, Enabled, Apply, RacingRun, FinishesAs, Runs, Users, PreservedTailStart;
    ReachableDisc(before, a, calm, b);
    KeptIsTheTail(b, id);
    RacingGrows(b, racing, s);
    RunsCompose(Initial, before + calm, b, racing, s);
    FinishAgreesIff(before + calm + racing, s, id, summary, estimate, io, untilLogged, m, untilInstalled, u);
    var kept, start := Kept(b.flights[id]), |b.state.history| - |Kept(b.flights[id])|;
    SameTextFront(SummaryEntry(summary), kept, b.state.history[start..]);
    ShiftedTail(b.state.history, start, EntriesOf(racing), kept);
  }

  /** In a disciplined run the kept entries are the last ones of the transcript. */
  lemma KeptIsTheTail(s: Live, id: FlightId)
    requires DiscInv(s) && !s.state.poisoned
    requires id in s.flights && (s.flights[id].stage.Waiting? || s.flights[id].stage.Summarizing?)
    ensures Sound(s.flights[id])
    ensures
      var kept, history := Kept(s.flights[id]), s.state.history;
      |kept| <= |history| && SameText(kept, Last(history, |kept|))
  {
    hide Replay, SameText, PreservedTailStart;
    assert FlightInv(s.state.files, s.flights[id]);
    FlightIsAboutLog(s, id);
    var model, lines := FileOf(s.state);
    KeptIsLast(model, lines, s.flights[id].snapshot, s.flights[id].firstKept);
  }

  /** From the first process on, that tail starts at the second-to-last user entry of the transcript. */
  lemma TheTailIsCanonical(steps: seq<Step>, t: Live, id: FlightId)
    requires DisciplinedRuns(Initial, steps, t) && !t.state.poisoned
    requires id in t.flights && t.flights[id].stage.Summarizing?
    ensures Sound(t.flights[id]) && |Kept(t.flights[id])| <= |t.state.history|
    ensures PreservedTailStart(t.state.history) == Some(|t.state.history| - |Kept(t.flights[id])|)
  {
    hide Replay, DiscInv, CheckpointInv, PreservedTailStart;
    ReachableCheckpoints(steps, t);
    KeptIsCanonicalTail(t, id);
  }

  /** The entry at `k` reads like the one `shift` positions later. */
  ghost predicate ReadsLater(history: seq<Entry>, k: nat, shift: nat) {
    k + shift < |history| && WithoutImages(history[k]) == WithoutImages(history[k + shift])
  }

  /** The kept entries read like the last ones of the grown transcript when each reads like a later one. */
  lemma ShiftedTail(history: seq<Entry>, start: nat, more: seq<Entry>, kept: seq<Entry>)
    requires start <= |history| && SameText(kept, history[start..])
    ensures |kept| == |history| - start
    ensures SameText(kept, Last(history + more, |kept|)) <==>
              forall k: nat | start <= k < |history| :: ReadsLater(history + more, k, |more|)
  {
    hide WithoutImages;
    var grown, tail := history + more, history[start..];
    SameTextSameLength(kept, tail);
    var last := Last(grown, |kept|);
    forall i: nat | i < |kept|
      ensures WithoutImages(kept[i]) == WithoutImages(last[i]) <==> ReadsLater(grown, start + i, |more|)
    {
      SameTextAt(kept, tail, i);
      assert grown[start + i] == tail[i] && grown[start + i + |more|] == last[i];
    }
    if SameText(kept, last) {
      forall k: nat | start <= k < |history| ensures ReadsLater(grown, k, |more|) {
        SameTextAt(kept, last, k - start);
        assert start + (k - start) == k;
      }
    }
    if forall k: nat | start <= k < |history| :: ReadsLater(grown, k, |more|) {
      forall i | 0 <= i < |kept| ensures WithoutImages(kept[i]) == WithoutImages(last[i]) {
        assert ReadsLater(grown, start + i, |more|);
      }
      SameTextFromEntries(kept, last);
    }
  }

  lemma SwitchedRun(before: seq<Step>, b: Live, switch: Step, racing: seq<Step>, s: Live)
    requires Runs(Initial, before, b) && Enabled(b, switch) && (switch.NewSession? || switch.Resume?)
    requires RacingRun(Apply(b, switch), racing, s)
    ensures Runs(Initial, before + [switch] + racing, s) && Inv(b) && Inv(Apply(b, switch)) && Inv(s) && !s.state.poisoned
    ensures s.flights == b.flights && s.state.history == Apply(b, switch).state.history + EntriesOf(racing)
    ensures Attached(s.state) && Attached(Apply(b, switch).state) && (Agrees(s.state) <==> Agrees(Apply(b, switch).state))
  {
    hide Replay, Inv, Runs, Agrees;
    ReachableInv(before, b);
    ApplyKeepsInv(b, switch);
    RunSnoc(Initial, before, b, switch);
    RacingGrows(Apply(b, switch), racing, s);
    AgreementLasts(Apply(b, switch), racing, s);
    RunsCompose(Initial, before + [switch], Apply(b, switch), racing, s);
  }

  /**
   A session is switched while the turn loop still counts retries, which a cancelled submission does not
   prevent as long as it is running: the next drop cuts that many entries of the resumed conversation. Log
   and live agree, then and after whatever others do, exactly when there was nothing to cut.
   */
  lemma RetriesOutliveSwitch(before: seq<Step>, b: Live, switch: Step, racing: seq<Step>, s: Live)
    requires Runs(Initial, before, b) && Enabled(b, switch) && (switch.NewSession? || switch.Resume?)
    requires RacingRun(Apply(b, switch), racing, s)
    ensures
      var resumed := if switch.NewSession? then [] else LoadedOf(b.state.files, switch.session).active;
      && Apply(b, switch).state.active == resumed
      && Apply(Apply(b, switch), DropEphemeral).state.active == Cut(resumed, b.state.ephemeral)
      && Attached(s.state)
      && (Agrees(s.state) <==> b.state.ephemeral == 0 || resumed == [])
  {
    hide Replay, Inv, RacingRun, Runs, SameText;
    SwitchedRun(before, b, switch, racing, s);
    var u := Apply(b, switch).state;
    CutIsDropped(u);
    assert LogOf(u).active == u.active;
    if b.state.ephemeral == 0 || u.active == [] {
      assert Visible(u) == u.active;
      SameTextIsReflexive(u.active);
    } else if SameText(Visible(u), u.active) {
      SameTextSameLength(Visible(u), u.active);
    }
  }

  /**
   A session is resumed while a compaction is under way, and more is said in it before its result is
   installed there. That agrees with the log exactly when the last entries of the resumed conversation at
   the measurement read like the kept ones and nothing follows, or all of a shorter one reads like them.
   */
  lemma ResumeDuringCompaction(
      before: seq<Step>, b: Live, id: FlightId, session: SessionId, racing: seq<Step>, s: Live,
      summary: string, estimate: seq<Entry> -> nat, io: Io,
      untilLogged: seq<Step>, m: Live, untilInstalled: seq<Step>, u: Live)
    requires Runs(Initial, before, b) && Enabled(b, Resume(session)) && id in b.flights
    requires RacingRun(Apply(b, Resume(session)), racing, s)
    requires FinishesAs(s, id, summary, estimate, io, untilLogged, m, untilInstalled, u)
    ensures Enabled(u, Install(id)) && Sound(b.flights[id])
    ensures
      var t := Apply(u, Install(id)).state;
      var kept, retries := Kept(b.flights[id]), u.state.ephemeral;
      var resumed := LoadedOf(b.state.files, session).history + EntriesOf(racing);
      var more := EntriesOf(untilLogged) + EntriesOf(untilInstalled);
      && t.current.Some? && Attached(t) && !t.poisoned && t.history == LogOf(t).history == resumed + more
      && t.active == [SummaryEntry(summary)] + kept
      && (SameText(t.active, LogOf(t).active) <==> KeptReadsLike(kept, 0, resumed, more))
      && (Agrees(t) <==> KeptReadsLike(kept, retries, resumed, more))
  {
    hide Replay, Users, LastUser, PreservedTailStart, SameText, LogOf, Enabled, MeasuredPlan, Runs, Inv, RacingRun, FinishesAs, KeptReadsLike, EntriesOf, Agrees;
    SwitchedRun(before, b, Resume(session), racing, s);
    FinishAgreesIff(before + [Resume(session)] + racing, s, id, summary, estimate, io, untilLogged, m, untilInstalled, u);
  }

  /**
   A new conversation is begun while a compaction is under way, which a manual compaction does not prevent.
   The tail of the old conversation becomes the active history of the new one, whose log replays to the
   bare summary and what is said until the install. The two disagree as long as that is less than was kept.
   */
  lemma NewSessionDuringCompaction(
      before: seq<Step>, b: Live, id: FlightId, racing: seq<Step>, s: Live,
      summary: string, estimate: seq<Entry> -> nat, io: Io,
      untilLogged: seq<Step>, m: Live, untilInstalled: seq<Step>, u: Live)
    requires Runs(Initial, before, b) && id in b.flights && Enabled(b, NewSession)
    requires RacingRun(Apply(b, NewSession), racing, s)
    requires FinishesAs(s, id, summary, estimate, io, untilLogged, m, untilInstalled, u)
    ensures Enabled(u, Install(id)) && Sound(b.flights[id])
    ensures
      var t := Apply(u, Install(id)).state;
      var kept, retries := Kept(b.flights[id]), u.state.ephemeral;
      var said, more := EntriesOf(racing), EntriesOf(untilLogged) + EntriesOf(untilInstalled);
      && t.current.Some? && Attached(t) && !t.poisoned && t.history == LogOf(t).history == said + more
      && t.active == [SummaryEntry(summary)] + kept && Users(t.active) == 3
      && (SameText(t.active, LogOf(t).active) <==> KeptReadsLike(kept, 0, said, more))
      && (Agrees(t) <==> KeptReadsLike(kept, retries, said, more))
      && (|said + more| < |kept| ==> !SameText(t.active, LogOf(t).active))
      && (|said + more| < |kept| - retries ==> !Agrees(t))
  {
    hide Replay, Users, LastUser, PreservedTailStart, SameText, LogOf, Enabled, MeasuredPlan, Runs, Inv, RacingRun, FinishesAs, KeptReadsLike, EntriesOf, Agrees;
    SwitchedRun(before, b, NewSession, racing, s);
    FinishAgreesIff(before + [NewSession] + racing, s, id, summary, estimate, io, untilLogged, m, untilInstalled, u);
    KeptHoldsTwo(b, id);
    var kept := Kept(b.flights[id]);
    SummaryAddsOneTurn(summary, kept);
    assert [] + EntriesOf(racing) == EntriesOf(racing);
    var more := EntriesOf(untilLogged) + EntriesOf(untilInstalled);
    TooShort(kept, 0, EntriesOf(racing), more);
    TooShort(kept, u.state.ephemeral, EntriesOf(racing), more);
  }

  lemma TooShort(kept: seq<Entry>, retries: nat, history: seq<Entry>, more: seq<Entry>)
    ensures |history + more| < |kept| - retries ==> !KeptReadsLike(kept, retries, history, more)
  {
    DifferentLength(Cut(kept, retries), history + more);
  }

  lemma DifferentLength(a: seq<Entry>, b: seq<Entry>)
    ensures |b| != |a| ==> !SameText(a, b)
  {
    if SameText(a, b) {
      SameTextSameLength(a, b);
    }
  }

  lemma SummaryAddsOneTurn(summary: string, kept: seq<Entry>)
    ensures Users([SummaryEntry(summary)] + kept) == 1 + Users(kept)
    ensures kept == [] ==> Users(kept) == 0
  {
    UsersAppend([SummaryEntry(summary)], kept);
    assert [SummaryEntry(summary)][..0] == [];
  }

  /** A session that is switched after the checkpoint was logged: installing touches no log any more. */
  lemma SwitchBeforeInstall(before: seq<Step>, b: Live, id: FlightId, switch: Step)
    requires Runs(Initial, before, b) && Enabled(b, Install(id)) && Enabled(b, switch)
    requires switch.NewSession? || switch.Resume?
    ensures Enabled(Apply(b, switch), Install(id))
    ensures
      var t := Apply(Apply(b, switch), Install(id)).state;
      var projected := b.flights[id].stage.plan.projected;
      && t.active == projected && Attached(t) && t.history == LogOf(t).history
      && LogOf(t).active == (if switch.NewSession? then [] else LoadedOf(b.state.files, switch.session).active)
      && (switch.NewSession? ==> !SameText(t.active, LogOf(t).active) && !Agrees(t))
  {
    hide Replay, Users, LastUser, PreservedTailStart, SameText;
    ReachableInv(before, b);
    assert FlightInv(b.state.files, b.flights[id]);
    KeptHoldsTwo(b, id);
    AtMostTwoRetries(Initial, before, b);
    var projected := b.flights[id].stage.plan.projected;
    DifferentLength(projected, []);
    DifferentLength(Cut(projected, b.state.ephemeral), []);
  }

  // ---------------------------------------------------------------- runs of the code

  function Said(text: string): Entry {
    Entry(User, text, [], "", [])
  }

  function Fine(id: SessionId): Io {
    Io(true, true, id, None)
  }

  /** A run that only said `entries`, each of them logged. */
  ghost predicate HasSaid(path: seq<Step>, s: Live, entries: seq<Entry>) {
    && Runs(Initial, path, s) && Attached(s.state) && !s.state.poisoned
    && s.state.history == entries && s.state.active == entries
    && s.state.ephemeral == 0 && s.state.slot.None? && s.flights == map[]
    && s.state.files.Keys <= {0} && (s.state.current.None? ==> s.state.files.Keys == {})
  }

  lemma SayOne(path: seq<Step>, s: Live, entries: seq<Entry>, entry: Entry) returns (step: Step, t: Live)
    requires HasSaid(path, s, entries)
    ensures HasSaid(path + [step], t, entries + [entry])
  {
    step := Push(entry, Fine(if s.state.current.None? then 0 else 1));
    t := Apply(s, step);
    RunSnoc(Initial, path, s, step);
  }

  lemma FourTurns() returns (path: seq<Step>, s: Live, texts: seq<Entry>)
    ensures HasSaid(path, s, texts) && PreservedTailStart(texts) == Some(2)
    ensures texts == [Said("one"), Said("two"), Said("three"), Said("four")]
  {
    var one, two, three, four := Said("one"), Said("two"), Said("three"), Said("four");
    assert HasSaid([], Initial, []);
    var step1, s1 := SayOne([], Initial, [], one);
    var step2, s2 := SayOne([] + [step1], s1, [] + [one], two);
    var step3, s3 := SayOne([] + [step1] + [step2], s2, [] + [one] + [two], three);
    var step4, s4 := SayOne([] + [step1] + [step2] + [step3], s3, [] + [one] + [two] + [three], four);
    path, s, texts := [] + [step1] + [step2] + [step3] + [step4], s4, [] + [one] + [two] + [three] + [four];
    assert PreservedTailStart(texts) == Some(2) by {
      assert texts[..3][2] == three;
    }
  }

  const Count: seq<Entry> -> nat := entries => |entries|

  /** The compaction of the four turns holds the slot and waits for its summary. */
  lemma Summarizing() returns (path: seq<Step>, b: Live, texts: seq<Entry>)
    ensures Runs(Initial, path, b) && Attached(b.state) && !b.state.poisoned && b.state.current.Some?
    ensures texts == [Said("one"), Said("two"), Said("three"), Said("four")] && b.state.history == texts
    ensures b.state.ephemeral == 0 && b.state.files.Keys == {0} && b.flights.Keys == {0}
    ensures b.flights[0] == Flight("manual", texts, 2, 4, Stage.Summarizing)
  {
    var before, s, said := FourTurns();
    hide PreservedTailStart, Runs;
    texts := said;
    var snapshot, slot := TakeSnapshot(0, "manual", Count), TakeSlot(0);
    var s1 := Apply(s, snapshot);
    b := Apply(s1, slot);
    path := before + [snapshot] + [slot];
    RunSnoc(Initial, before, s, snapshot);
    RunSnoc(Initial, before + [snapshot], s1, slot);
    HasSession(path, b);
  }

  /** A conversation with a transcript that was logged has a session. */
  lemma HasSession(path: seq<Step>, b: Live)
    requires Runs(Initial, path, b) && !b.state.poisoned && b.state.history != []
    ensures b.state.current.Some? && Attached(b.state)
  {
    ReplayRefinesTranscript(path, b);
  }

  /** From a measurement on: what the steps of an undisturbed finish come to. */
  lemma FinishAtOnce(s: Live, id: FlightId, io: Io) returns (steps: seq<Step>, m: Live, u: Live)
    requires Attached(s.state) && !s.state.poisoned && io == Fine(1) && 1 !in s.state.files
    requires id in s.flights && s.flights[id].stage.Summarizing?
    requires s.flights[id].firstKept == 2 && |s.flights[id].snapshot| == 4 && s.flights[id].before == 4
    ensures FinishesAs(s, id, "summary", Count, io, [], m, [], u)
    ensures Runs(s, [Measure(id, Some("summary"), Count), LogCheckpoint(id, io)], u) && u.state.ephemeral == s.state.ephemeral
  {
    var measure, log := Measure(id, Some("summary"), Count), LogCheckpoint(id, io);
    m := Apply(s, measure);
    u := Apply(m, log);
    steps := [measure, log];
    assert [measure, log][1..] == [log] && [log][1..] == [];
    assert Runs(u, [], u) && Runs(m, [log], u);
  }

  /** There are runs without a failed write after which log and active history differ. */
  ghost predicate Splits(steps: seq<Step>, t: Live) {
    && Runs(Initial, steps, t) && !t.state.poisoned
    && t.state.current.Some? && Attached(t.state)
    && !SameText(t.state.active, LogOf(t.state).active)
  }

  /**
   Nothing in the code rules the race out: four turns, a compaction, a fifth turn before it is measured.
   No write fails, and yet the log does not replay to what the provider is shown.
   */
  lemma CompactionRaceSplitsLogFromLive()
    ensures exists steps: seq<Step>, t: Live :: Splits(steps, t)
  {
    var path, b, texts := Summarizing();
    hide Runs, SameText, LogOf, PreservedTailStart, Users, LastUser;
    var push := Push(Said("five"), Fine(1));
    var s := Apply(b, push);
    RunSnoc(Initial, path, b, push);
    var steps, m, u := FinishAtOnce(s, 0, Fine(1));
    FinishAgreesIff(path + [push], s, 0, "summary", Count, Fine(1), [], m, [], u);
    var t := Apply(u, Install(0));
    var kept := Kept(s.flights[0]);
    assert !SameText(kept, Last(s.state.history, |kept|)) by { DifferentFirstText(kept, Last(s.state.history, |kept|)); }
    RunsCompose(Initial, path + [push], s, [Measure(0, Some("summary"), Count), LogCheckpoint(0, Fine(1))], u);
    RunSnoc(Initial, path + [push] + [Measure(0, Some("summary"), Count), LogCheckpoint(0, Fine(1))], u, Install(0));
    assert Splits(path + [push] + [Measure(0, Some("summary"), Count), LogCheckpoint(0, Fine(1))] + [Install(0)], t);
  }

  /** Log and active history agree, but only until the retries are dropped. */
  ghost predicate AgreesUntilDropped(steps: seq<Step>, s: Live) {
    && Runs(Initial, steps, s) && !s.state.poisoned && Attached(s.state)
    && SameText(s.state.active, LogOf(s.state).active)
    && !SameText(Apply(s, DropEphemeral).state.active, LogOf(Apply(s, DropEphemeral).state).active)
  }

  /**
   Four turns, a compaction, and a retry before it is measured. Nothing is appended, switched or failing,
   the installed history agrees with the log, and the drop that follows cuts two kept entries from it.
   */
  lemma RetriesCutTheKeptTail()
    ensures exists steps: seq<Step>, s: Live :: AgreesUntilDropped(steps, s)
  {
    var path, b, texts := Summarizing();
    hide Runs, SameText, LogOf, PreservedTailStart, Users, LastUser, FinishesAs, SnapshotOf, MeasuredPlan, Appended, AgreesUntilDropped, Agrees;
    var retry := PushEphemeral(Entry(Assistant, "call", [], "", []), Entry(Role.Tool, "halted", [], "", []));
    var s := Apply(b, retry);
    RunSnoc(Initial, path, b, retry);
    var steps, m, u := FinishAtOnce(s, 0, Fine(1));
    FinishAgreesIff(path + [retry], s, 0, "summary", Count, Fine(1), [], m, [], u);
    SameTextIsReflexive(Kept(s.flights[0]));
    RunsCompose(Initial, path + [retry], s, [Measure(0, Some("summary"), Count), LogCheckpoint(0, Fine(1))], u);
    InstalledUnderRetries(path + [retry] + [Measure(0, Some("summary"), Count), LogCheckpoint(0, Fine(1))], u, 0);
  }

  /** What agrees at the install, but not without the retries that are counted. */
  lemma InstalledUnderRetries(steps: seq<Step>, u: Live, id: FlightId)
    requires Runs(Initial, steps, u) && Enabled(u, Install(id))
    requires
      var t := Apply(u, Install(id)).state;
      !t.poisoned && Attached(t) && SameText(t.active, LogOf(t).active) && !Agrees(t)
    ensures AgreesUntilDropped(steps + [Install(id)], Apply(u, Install(id)))
  {
    hide Runs, SameText, LogOf;
    var t := Apply(u, Install(id));
    RunSnoc(Initial, steps, u, Install(id));
    CutIsDropped(t.state);
    LogIgnoresRest(t.state, Apply(t, DropEphemeral).state);
  }

  lemma LogIgnoresRest(s: State, t: State)
    requires Attached(s) && t.files == s.files && t.current == s.current
    ensures Attached(t) && LogOf(t) == LogOf(s)
  {
  }

  lemma DifferentFirstText(a: seq<Entry>, b: seq<Entry>)
    requires a != [] && b != [] && a[0].content != b[0].content
    ensures !SameText(a, b)
  {
    if SameText(a, b) {
      SameTextAt(a, b, 0);
    }
  }

  /** And a run in which the compaction of one conversation ends up in the next one. */
  lemma CompactionSurvivesNewSession()
    ensures exists steps: seq<Step>, t: Live :: Splits(steps, t) && t.state.history == [] && Users(t.state.active) == 3
  {
    var path, b, texts := Summarizing();
    hide Runs, SameText, LogOf, PreservedTailStart, Users, LastUser, FinishesAs, SnapshotOf, MeasuredPlan, Appended;
    var s := Apply(b, NewSession);
    RunSnoc(Initial, path, b, NewSession);
    var steps, m, u := FinishAtOnce(s, 0, Fine(1));
    NewSessionDuringCompaction(path, b, 0, [], s, "summary", Count, Fine(1), [], m, [], u);
    var t := Apply(u, Install(0));
    RunsCompose(Initial, path + [NewSession], s, [Measure(0, Some("summary"), Count), LogCheckpoint(0, Fine(1))], u);
    RunSnoc(Initial, path + [NewSession] + [Measure(0, Some("summary"), Count), LogCheckpoint(0, Fine(1))], u, Install(0));
    assert Splits(path + [NewSession] + [Measure(0, Some("summary"), Count), LogCheckpoint(0, Fine(1))] + [Install(0)], t);
  }
}
