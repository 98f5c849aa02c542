/**
 The FIFO submission queue: acceptance, the single draining worker and its hand-off, cancellation,
 terminal events, and the closing of admission at shutdown.

 Each critical section of the queue lock is one function on values; the object's methods compute those
 functions, and the transition system interleaves them with everything that happens between them.
 */
module Queue {
  import opened Wrappers

  type Id = nat

  datatype Submission = Submission(id: Id, message: string)

  datatype Outcome = Completed | Failed | Cancelled

  datatype Event =
    | Accepted(id: Id)
    | Started(id: Id)
    | Terminal(id: Id, outcome: Outcome)

  /** How the turn loop of a started submission ended. */
  datatype TurnResult = Answered | CompactionFailed | TurnFailed(cancelled: bool)

  /**
   The queue proper, the `active` registry, the cancellation flags of all submissions ever accepted,
   the id counter, the admission flag and the published events.
   */
  datatype State = State(
    pending: seq<Submission>,
    current: Option<Id>,
    workerRunning: bool,
    active: set<Id>,
    cancelled: set<Id>,
    next: Id,
    shutdown: bool,
    events: seq<Event>)

  // ---------------------------------------------------------------- critical sections

  function Enqueued(q: State, message: string): State {
    q.(pending := q.pending + [Submission(q.next, message)], workerRunning := true,
       active := q.active + {q.next}, next := q.next + 1, events := q.events + [Accepted(q.next)])
  }

  function Popped(q: State): State {
    if q.pending == [] then q.(current := None, workerRunning := false)
    else q.(pending := q.pending[1..], current := Some(q.pending[0].id))
  }

  function Finished(q: State, id: Id): State {
    q.(current := if q.current == Some(id) then None else q.current, active := q.active - {id})
  }

  function Flagged(q: State, ids: set<Id>): State {
    q.(cancelled := q.cancelled + ids)
  }

  function Emitted(q: State, event: Event): State {
    q.(events := q.events + [event])
  }

  /** A failed turn counts as cancelled when either it says so or the flag is up by then. */
  function OutcomeOf(result: TurnResult, cancelled: bool): Outcome {
    match result
    case Answered => Completed
    case CompactionFailed => Failed
    case TurnFailed(c) => if c || cancelled then Cancelled else Failed
  }

  function Ids(submissions: seq<Submission>): seq<Id> {
    if submissions == [] then [] else [submissions[0].id] + Ids(submissions[1..])
  }

  function IdSet(submissions: seq<Submission>): set<Id> {
    if submissions == [] then {} else {submissions[0].id} + IdSet(submissions[1..])
  }

  lemma {:induction false} IdsAt(submissions: seq<Submission>)
    ensures |Ids(submissions)| == |submissions|
    ensures forall i | 0 <= i < |submissions| :: Ids(submissions)[i] == submissions[i].id
  {
    if submissions != [] {
      IdsAt(submissions[1..]);
      forall i | 0 < i < |submissions| ensures Ids(submissions)[i] == submissions[i].id {
        assert Ids(submissions)[i] == Ids(submissions[1..])[i - 1] == submissions[1..][i - 1].id;
      }
    }
  }

  lemma {:induction false} IdSetMembers(submissions: seq<Submission>)
    ensures forall id :: id in IdSet(submissions) <==> id in Ids(submissions)
  {
    if submissions != [] {
      IdSetMembers(submissions[1..]);
      assert Ids(submissions) == [submissions[0].id] + Ids(submissions[1..]);
    }
  }

  lemma {:induction false} IdsSnoc(submissions: seq<Submission>, last: Submission)
    ensures Ids(submissions + [last]) == Ids(submissions) + [last.id]
    ensures IdSet(submissions + [last]) == IdSet(submissions) + {last.id}
  {
    if submissions == [] {
      assert submissions + [last] == [last];
      assert [last][1..] == [];
    } else {
      assert (submissions + [last])[1..] == submissions[1..] + [last];
      IdsSnoc(submissions[1..], last);
    }
  }

  /** What one submission publishes; `during` holds the ids that are cancelled while its turn loop runs. */
  function RunEvents(id: Id, cancelled: set<Id>, during: set<Id>, results: Id -> TurnResult): seq<Event> {
    if id in cancelled then [Terminal(id, Cancelled)]
    else [Started(id), Terminal(id, OutcomeOf(results(id), id in during))]
  }

  /** What is flagged once the submission has been dealt with: a cancelled one has no turn loop. */
  function FlaggedBy(id: Id, cancelled: set<Id>, during: set<Id>): set<Id> {
    if id in cancelled then cancelled else cancelled + during
  }

  /** What draining `submissions` publishes when only cancellations happen in the meantime. */
  function DrainEvents(
      submissions: seq<Submission>, cancelled: set<Id>, during: Id -> set<Id>, results: Id -> TurnResult): seq<Event> {
    if submissions == [] then []
    else
      var id := submissions[0].id;
      RunEvents(id, cancelled, during(id), results)
      + DrainEvents(submissions[1..], FlaggedBy(id, cancelled, during(id)), during, results)
  }

  /** And what is flagged then. */
  function DrainFlags(submissions: seq<Submission>, cancelled: set<Id>, during: Id -> set<Id>): set<Id> {
    if submissions == [] then cancelled
    else DrainFlags(submissions[1..], FlaggedBy(submissions[0].id, cancelled, during(submissions[0].id)), during)
  }

  function SnapshotOf(q: State): (Option<Id>, seq<Id>) {
    (if q.current.Some? && q.current.value !in q.cancelled then q.current else None,
     Uncancelled(q.pending, q.cancelled))
  }

  /** The ids a snapshot shows as queued. */
  function Uncancelled(submissions: seq<Submission>, cancelled: set<Id>): seq<Id> {
    if submissions == [] then []
    else
      (if submissions[0].id in cancelled then [] else [submissions[0].id]) + Uncancelled(submissions[1..], cancelled)
  }

  lemma {:induction false} UncancelledArePending(submissions: seq<Submission>, cancelled: set<Id>, id: Id)
    ensures id in Uncancelled(submissions, cancelled) <==> id !in cancelled && id in IdSet(submissions)
  {
    if submissions != [] {
      UncancelledArePending(submissions[1..], cancelled, id);
    }
  }

  function RanToTheEnd(q: State, id: Id, during: set<Id>, results: Id -> TurnResult): State {
    Finished(q, id).(cancelled := FlaggedBy(id, q.cancelled, during),
                     events := q.events + RunEvents(id, q.cancelled, during, results))
  }

  /** The queue after its worker has dealt with `waiting` and retired, when only cancellations interfere. */
  function Drained(q: State, waiting: seq<Submission>, during: Id -> set<Id>, results: Id -> TurnResult): State {
    q.(pending := [], current := None, workerRunning := false,
       active := q.active - IdSet(waiting),
       cancelled := DrainFlags(waiting, q.cancelled, during),
       events := q.events + DrainEvents(waiting, q.cancelled, during, results))
  }

  lemma DrainOne(q: State, waiting: seq<Submission>, during: Id -> set<Id>, results: Id -> TurnResult)
    requires waiting != []
    ensures
      var id := waiting[0].id;
      Drained(q, waiting, during, results) == Drained(RanToTheEnd(q, id, during(id), results), waiting[1..], during, results)
  {
    var id := waiting[0].id;
    assert q.active - IdSet(waiting) == q.active - {id} - IdSet(waiting[1..]);
  }

  /** The pop between two submissions does not matter to what draining comes to. */
  lemma DrainAfterPop(q: State, waiting: seq<Submission>, during: Id -> set<Id>, results: Id -> TurnResult)
    ensures Drained(Popped(q), waiting, during, results) == Drained(q, waiting, during, results)
  {
  }

  lemma DrainNothing(q: State, during: Id -> set<Id>, results: Id -> TurnResult)
    requires q.pending == [] && q.current.None? && !q.workerRunning
    ensures Drained(q, [], during, results) == q
  {
  }

  // ---------------------------------------------------------------- the queue object

  class SubmissionQueue {
    var pending: seq<Submission>
    var current: Option<Id>
    var workerRunning: bool
    var active: set<Id>
    var cancelled: set<Id>
    var next: Id
    var isShutdown: bool
    var events: seq<Event>

    ghost function View(): State
      reads this
    {
      State(pending, current, workerRunning, active, cancelled, next, isShutdown, events)
    }

    constructor ()
      ensures View() == Empty == State([], None, false, {}, {}, 1, false, [])
    {
      pending, current, workerRunning := [], None, false;
      active, cancelled, next := {}, {}, 1;
      isShutdown, events := false, [];
    }

    /** Fails once admission is closed; otherwise also says whether the caller must start the worker. */
    method EnqueueSubmission(message: string) returns (accepted: Option<(Id, bool)>)
      modifies this
      ensures accepted.None? <==> old(isShutdown)
      ensures accepted.None? ==> View() == old(View())
      ensures accepted.Some? ==> View() == Enqueued(old(View()), message)
      ensures accepted.Some? ==> accepted.value == (old(next), !old(workerRunning))
    {
      if isShutdown {
        return None;
      }
      var id := next;
      next := next + 1;
      active := active + {id};
      events := events + [Accepted(id)];
      pending := pending + [Submission(id, message)];
      if workerRunning {
        accepted := Some((id, false));
      } else {
        workerRunning := true;
        accepted := Some((id, true));
      }
    }

    method PopNext() returns (popped: Option<Submission>)
      modifies this
      ensures View() == Popped(old(View()))
      ensures popped == if old(pending) == [] then None else Some(old(pending)[0])
    {
      if pending == [] {
        popped := None;
        current := None;
        workerRunning := false;
      } else {
        popped := Some(pending[0]);
        current := Some(pending[0].id);
        pending := pending[1..];
      }
    }

    /**
     Cancelled work ends without starting; everything else starts and ends as its turn loop did, with the
     cancellations that arrive in the meantime.
     */
    method RunSubmission(submission: Submission, during: set<Id>, results: Id -> TurnResult) returns (terminal: Event)
      modifies this`events, this`cancelled
      ensures events + [terminal] == old(events) + RunEvents(submission.id, old(cancelled), during, results)
      ensures cancelled == FlaggedBy(submission.id, old(cancelled), during)
      ensures cancelled == old(cancelled) + if submission.id in old(cancelled) then {} else during
      ensures terminal.Terminal? && terminal.id == submission.id
      ensures
        var (started, result) := (submission.id !in old(cancelled), results(submission.id));
        && (events == if started then old(events) + [Started(submission.id)] else old(events))
        && (terminal.outcome == Completed <==> started && result == Answered)
        && (terminal.outcome == Cancelled <==>
              !started || result == TurnFailed(true) || (result.TurnFailed? && submission.id in old(cancelled) + during))
    {
      if submission.id in cancelled {
        return Terminal(submission.id, Cancelled);
      }
      events := events + [Started(submission.id)];
      cancelled := cancelled + during;
      terminal := Terminal(submission.id, OutcomeOf(results(submission.id), submission.id in cancelled));
    }

    method FinishSubmission(id: Id)
      modifies this
      ensures View() == Finished(old(View()), id)
    {
      if current == Some(id) {
        current := None;
      }
      active := active - {id};
    }

    /** One turn of the worker: run, take the submission off the registry, then publish how it ended. */
    method RunToTheEnd(submission: Submission, during: set<Id>, results: Id -> TurnResult)
      modifies this
      ensures View() == RanToTheEnd(old(View()), submission.id, during, results) && pending == old(pending)
    {
      var terminal := RunSubmission(submission, during, results);
      FinishSubmission(submission.id);
      events := events + [terminal];
    }

    /** The worker: runs everything pending in order, then retires. */
    method DrainSubmissionQueue(during: Id -> set<Id>, results: Id -> TurnResult)
      modifies this
      ensures View() == Drained(old(View()), old(pending), during, results)
    {
      hide Drained, RanToTheEnd;
      ghost var end := Drained(View(), pending, during, results);
      ghost var waiting := pending;
      DrainAfterPop(View(), pending, during, results);
      var popped := PopNext();
      assert View().pending == pending && Waiting(popped, pending) == waiting;
      while popped.Some?
        invariant popped.None? ==> pending == [] && current == None && !workerRunning
        invariant Drained(View(), Waiting(popped, pending), during, results) == end
        decreases popped.Some?, |pending|
      {
        DrainOne(View(), Waiting(popped, pending), during, results);
        RunToTheEnd(popped.value, during(popped.value.id), results);
        waiting := pending;
        DrainAfterPop(View(), pending, during, results);
        popped := PopNext();
        assert View().pending == pending && Waiting(popped, pending) == waiting;
      }
      DrainNothing(View(), during, results);
    }

    method CancelSubmission(id: Id) returns (known: bool)
      modifies this`cancelled
      ensures known <==> id in active
      ensures View() == if known then Flagged(old(View()), {id}) else old(View())
    {
      known := id in active;
      if known {
        cancelled := cancelled + {id};
      }
    }

    method CancelAllSubmissions()
      modifies this`cancelled
      ensures View() == Flagged(old(View()), active)
    {
      var submissions := active;
      while submissions != {}
        invariant submissions <= active
        invariant cancelled == old(cancelled) + (active - submissions)
      {
        var id :| id in submissions;
        cancelled := cancelled + {id};
        submissions := submissions - {id};
      }
    }

    method CancelCurrentSubmission() returns (found: bool)
      modifies this`cancelled
      ensures found <==> current.Some?
      ensures View() == if found then Flagged(old(View()), {current.value}) else old(View())
    {
      found := current.Some?;
      if found {
        cancelled := cancelled + {current.value};
      }
    }

    method CloseAdmission()
      modifies this`isShutdown
      ensures View() == old(View()).(shutdown := true)
    {
      isShutdown := true;
    }

    /** Cancelled work is hidden at once, even while its worker is still finishing it. */
    method Snapshot() returns (activeSubmission: Option<Id>, queued: seq<Id>)
      ensures (activeSubmission, queued) == SnapshotOf(View())
    {
      activeSubmission := if current.Some? && current.value !in cancelled then current else None;
      queued := [];
      var i := 0;
      while i < |pending|
        invariant 0 <= i <= |pending|
        invariant queued + Uncancelled(pending[i..], cancelled) == Uncancelled(pending, cancelled)
      {
        var shown := if pending[i].id in cancelled then [] else [pending[i].id];
        assert pending[i..][1..] == pending[i + 1..];
        assert queued + (shown + Uncancelled(pending[i + 1..], cancelled)) == (queued + shown) + Uncancelled(pending[i + 1..], cancelled);
        queued := queued + shown;
        i := i + 1;
      }
      assert pending[i..] == [] && queued + [] == queued;
    }
  }

  const Empty: State := State([], None, false, {}, {}, 1, false, [])

  function Waiting(popped: Option<Submission>, pending: seq<Submission>): seq<Submission> {
    if popped.Some? then [popped.value] + pending else []
  }

  // ---------------------------------------------------------------- interleaving

  /** Where a worker task stands. A worker that pops nothing is gone. */
  datatype Worker =
    | Popping
    | Judging(submission: Submission)                 // before the cancellation check
    | Starting(submission: Submission)                // passed the check, not yet announced
    | Running(submission: Submission)
    | Finishing(id: Id, outcome: Outcome)             // before `finish_submission`
    | Announcing(id: Id, outcome: Outcome)            // before the terminal event

  /**
   `workers` are all live worker tasks. `found` are submissions a canceller has looked up but not
   flagged yet. `sweep` is the part of the shutdown pass still to flag. `dropped` is the submission an
   aborted worker was holding. `log` keeps the published events apart by kind. `messages` are the accepted
   messages, and `ends` is how the turn loops ended, and whether the flag was up by then.
   */
  datatype System = System(
    q: State,
    workers: seq<Worker>,
    found: set<Id>,
    sweep: Option<set<Id>>,
    aborted: bool,
    dropped: seq<Id>,
    log: Log,
    messages: map<Id, string>,
    ends: map<Id, Returned>)

  datatype Returned = Returned(result: TurnResult, flagged: bool)

  datatype Log = Log(accepted: seq<Id>, started: seq<Id>, reported: seq<Id>)

  datatype Step =
    | Submit(message: string)
    | Pop(worker: nat)
    | Judge(worker: nat)
    | Start(worker: nat)
    | Return(worker: nat, result: TurnResult)
    | Finish(worker: nat)
    | Announce(worker: nat)
    | AbortWorker(worker: nat)
    | FindToCancel(id: Id)
    | FlagFound(id: Id)
    | CloseAdmission
    | BeginSweep
    | SweepOne(id: Id)

  predicate Enabled(s: System, step: Step) {
    match step
    case Submit(_) => !s.q.shutdown
    case Pop(w) => w < |s.workers| && s.workers[w].Popping?
    case Judge(w) => w < |s.workers| && s.workers[w].Judging?
    case Start(w) => w < |s.workers| && s.workers[w].Starting?
    case Return(w, _) => w < |s.workers| && s.workers[w].Running?
    case Finish(w) => w < |s.workers| && s.workers[w].Finishing?
    case Announce(w) => w < |s.workers| && s.workers[w].Announcing?
    case AbortWorker(w) => w < |s.workers| && s.q.shutdown
    case FindToCancel(id) => id in s.q.active
    case FlagFound(id) => id in s.found
    case CloseAdmission => true
    case BeginSweep => s.q.shutdown && s.sweep.None?
    case SweepOne(id) => s.sweep.Some? && id in s.sweep.value
  }

  function Apply(s: System, step: Step): System
    requires Enabled(s, step)
  {
    match step
    case Submit(message) =>
      s.(q := Enqueued(s.q, message), workers := if s.q.workerRunning then s.workers else s.workers + [Popping],
         log := s.log.(accepted := s.log.accepted + [s.q.next]), messages := s.messages[s.q.next := message])
    case Pop(w) =>
      s.(q := Popped(s.q),
         workers := if s.q.pending == [] then s.workers[..w] + s.workers[w + 1..]
                    else s.workers[w := Judging(s.q.pending[0])])
    case Judge(w) =>
      var submission := s.workers[w].submission;
      s.(workers := s.workers[w :=
        if submission.id in s.q.cancelled then Finishing(submission.id, Cancelled) else Starting(submission)])
    case Start(w) =>
      var submission := s.workers[w].submission;
      s.(q := Emitted(s.q, Started(submission.id)), workers := s.workers[w := Running(submission)],
         log := s.log.(started := s.log.started + [submission.id]))
    case Return(w, result) =>
      var id := s.workers[w].submission.id;
      s.(workers := s.workers[w := Finishing(id, OutcomeOf(result, id in s.q.cancelled))],
         ends := s.ends[id := Returned(result, id in s.q.cancelled)])
    case Finish(w) =>
      var Finishing(id, outcome) := s.workers[w];
      s.(q := Finished(s.q, id), workers := s.workers[w := Announcing(id, outcome)])
    case Announce(w) =>
      var Announcing(id, outcome) := s.workers[w];
      s.(q := Emitted(s.q, Terminal(id, outcome)), workers := s.workers[w := Popping],
         log := s.log.(reported := s.log.reported + [id]))
    case AbortWorker(w) =>
      s.(workers := s.workers[..w] + s.workers[w + 1..], aborted := true,
         dropped := s.dropped + HeldBy(s.workers[w]))
    case FindToCancel(id) => s.(found := s.found + {id})
    case FlagFound(id) => s.(q := Flagged(s.q, {id}), found := s.found - {id})
    case CloseAdmission => s.(q := s.q.(shutdown := true))
    case BeginSweep => s.(sweep := Some(s.q.active))
    case SweepOne(id) => s.(q := Flagged(s.q, {id}), sweep := Some(s.sweep.value - {id}))
  }

  ghost predicate Runs(s: System, steps: seq<Step>, t: System)
    decreases steps
  {
    if steps == [] then s == t
    else Enabled(s, steps[0]) && Runs(Apply(s, steps[0]), steps[1..], t)
  }

  const Fresh: System := System(Empty, [], {}, None, false, [], Log([], [], []), map[], map[])

  // ---------------------------------------------------------------- invariant

  ghost predicate Increasing(ids: seq<Id>) {
    forall i, j | 0 <= i < j < |ids| :: ids[i] < ids[j]
  }

  ghost predicate AllBelow(ids: seq<Id>, bound: Id) {
    forall i | 0 <= i < |ids| :: ids[i] < bound
  }

  /** The submission a worker has popped but not yet reported on. */
  function HeldBy(worker: Worker): seq<Id> {
    match worker
    case Popping => []
    case Judging(submission) => [submission.id]
    case Starting(submission) => [submission.id]
    case Running(submission) => [submission.id]
    case Finishing(id, _) => [id]
    case Announcing(id, _) => [id]
  }

  /** The queue's `current` slot while the worker stands here. */
  function CurrentOf(worker: Worker): Option<Id> {
    match worker
    case Popping => None
    case Judging(submission) => Some(submission.id)
    case Starting(submission) => Some(submission.id)
    case Running(submission) => Some(submission.id)
    case Finishing(id, _) => Some(id)
    case Announcing(_, _) => None
  }

  function Unreported(s: System): seq<Id> {
    if s.workers != [] then HeldBy(s.workers[0]) else s.dropped
  }

  ghost predicate WorkerInv(s: System) {
    && |s.workers| <= 1 && |s.dropped| <= 1
    && (s.aborted ==> s.workers == [] && s.q.workerRunning)
    && (!s.aborted ==> s.dropped == [] && (s.q.workerRunning <==> s.workers != []))
    && (!s.q.workerRunning ==> s.q.pending == [])
    && (!s.aborted ==> s.q.current == if s.workers == [] then None else CurrentOf(s.workers[0]))
  }

  /** The accepted ids are the reported ones, then the held or dropped one, then the pending ones. */
  ghost predicate FifoInv(s: System) {
    && s.log.accepted == s.log.reported + Unreported(s) + Ids(s.q.pending)
    && Increasing(s.log.accepted) && AllBelow(s.log.accepted, s.q.next)
  }

  ghost predicate RegistryInv(q: State) {
    q.active == IdSet(q.pending) + (if q.current.Some? then {q.current.value} else {})
  }

  ghost predicate SweepInv(s: System) {
    s.sweep.Some? ==> s.q.shutdown && s.q.active <= s.q.cancelled + s.sweep.value
  }

  /** The first accepted id that has certainly not been started. */
  function NotStarted(s: System): Id {
    if s.workers != [] && (s.workers[0].Judging? || s.workers[0].Starting?) then s.workers[0].submission.id
    else if s.q.pending != [] then s.q.pending[0].id
    else s.q.next
  }

  ghost predicate StartInv(s: System) {
    Increasing(s.log.started) && AllBelow(s.log.started, NotStarted(s))
  }

  ghost predicate Inv(s: System) {
    WorkerInv(s) && FifoInv(s) && RegistryInv(s.q) && SweepInv(s) && StartInv(s)
  }

  lemma ApplyKeepsWorkerInv(s: System, step: Step)
    requires WorkerInv(s) && Enabled(s, step)
    ensures WorkerInv(Apply(s, step))
  {
  }

  lemma SubmitKeepsFifoInv(s: System, message: string)
    requires WorkerInv(s) && FifoInv(s) && Enabled(s, Submit(message))
    ensures FifoInv(Apply(s, Submit(message)))
  {
    IdsSnoc(s.q.pending, Submission(s.q.next, message));
    assert Unreported(Apply(s, Submit(message))) == Unreported(s);
    assert s.log.reported + Unreported(s) + Ids(s.q.pending) + [s.q.next]
        == s.log.reported + Unreported(s) + (Ids(s.q.pending) + [s.q.next]);
  }

  lemma PopKeepsFifoInv(s: System, w: nat)
    requires WorkerInv(s) && FifoInv(s) && Enabled(s, Pop(w))
    ensures FifoInv(Apply(s, Pop(w)))
  {
    if s.q.pending != [] {
      assert s.log.reported + [] + ([s.q.pending[0].id] + Ids(s.q.pending[1..]))
          == s.log.reported + [s.q.pending[0].id] + Ids(s.q.pending[1..]);
    }
  }

  lemma AnnounceKeepsFifoInv(s: System, w: nat)
    requires WorkerInv(s) && FifoInv(s) && Enabled(s, Announce(w))
    ensures FifoInv(Apply(s, Announce(w)))
  {
    assert s.log.reported + [s.workers[w].id] + [] == s.log.reported + [s.workers[w].id];
  }

  lemma RestKeepsUnreported(s: System, step: Step)
    requires WorkerInv(s) && Enabled(s, step) && !step.Submit? && !step.Pop? && !step.Announce?
    ensures var t := Apply(s, step);
      && t.log.accepted == s.log.accepted && t.log.reported == s.log.reported
      && t.q.pending == s.q.pending && t.q.next == s.q.next && Unreported(t) == Unreported(s)
  {
    if step.AbortWorker? {
      assert s.dropped + HeldBy(s.workers[step.worker]) == HeldBy(s.workers[step.worker]);
    }
  }

  lemma ApplyKeepsFifoInv(s: System, step: Step)
    requires WorkerInv(s) && FifoInv(s) && Enabled(s, step)
    ensures FifoInv(Apply(s, step))
  {
    match step {
      case Submit(message) => SubmitKeepsFifoInv(s, message);
      case Pop(w) => PopKeepsFifoInv(s, w);
      case Announce(w) => AnnounceKeepsFifoInv(s, w);
      case _ => RestKeepsUnreported(s, step);
    }
  }

  /** What is held was accepted before everything pending, and pending submissions are in order. */
  lemma PendingComesLast(s: System)
    requires WorkerInv(s) && FifoInv(s)
    ensures s.q.pending != [] ==> s.q.pending[0].id < s.q.next
    ensures |s.q.pending| > 1 ==> s.q.pending[0].id < s.q.pending[1].id
    ensures Unreported(s) != [] ==> Unreported(s)[0] < s.q.next && Unreported(s)[0] !in IdSet(s.q.pending)
    ensures Unreported(s) != [] && s.q.pending != [] ==> Unreported(s)[0] < s.q.pending[0].id
  {
    var pending := s.q.pending;
    IdsAt(pending);
    IdSetMembers(pending);
    var before := |s.log.reported| + |Unreported(s)|;
    if pending != [] {
      assert s.log.accepted[before] == Ids(pending)[0];
    }
    if |pending| > 1 {
      assert s.log.accepted[before + 1] == Ids(pending)[1];
    }
    if Unreported(s) != [] {
      assert s.log.accepted[before - 1] == Unreported(s)[0];
      forall i | 0 <= i < |pending| ensures Unreported(s)[0] < Ids(pending)[i] {
        assert s.log.accepted[before + i] == Ids(pending)[i];
      }
    }
  }

  lemma FinishKeepsRegistryInv(s: System, w: nat)
    requires WorkerInv(s) && FifoInv(s) && RegistryInv(s.q) && Enabled(s, Finish(w))
    ensures RegistryInv(Apply(s, Finish(w)).q)
  {
    PendingComesLast(s);
    assert s.q.current == Some(s.workers[w].id) && Unreported(s) == [s.workers[w].id];
  }

  lemma PopKeepsRegistryInv(s: System, w: nat)
    requires WorkerInv(s) && RegistryInv(s.q) && Enabled(s, Pop(w))
    ensures RegistryInv(Apply(s, Pop(w)).q)
  {
    assert s.q.current == None;
  }

  lemma ApplyKeepsRegistryInv(s: System, step: Step)
    requires WorkerInv(s) && FifoInv(s) && RegistryInv(s.q) && Enabled(s, step)
    ensures RegistryInv(Apply(s, step).q)
  {
    match step {
      case Submit(message) => IdsSnoc(s.q.pending, Submission(s.q.next, message));
      case Pop(w) => PopKeepsRegistryInv(s, w);
      case Finish(w) => FinishKeepsRegistryInv(s, w);
      case _ =>
        var t := Apply(s, step);
        assert t.q.active == s.q.active && t.q.pending == s.q.pending && t.q.current == s.q.current;
    }
  }

  lemma ApplyKeepsSweepInv(s: System, step: Step)
    requires SweepInv(s) && Enabled(s, step)
    ensures SweepInv(Apply(s, step))
  {
  }

  lemma PopKeepsBound(s: System, w: nat)
    requires WorkerInv(s) && Enabled(s, Pop(w))
    ensures NotStarted(Apply(s, Pop(w))) == NotStarted(s)
  {
  }

  lemma StartRaisesBound(s: System, w: nat)
    requires WorkerInv(s) && FifoInv(s) && Enabled(s, Start(w))
    ensures NotStarted(s) == s.workers[w].submission.id < NotStarted(Apply(s, Start(w)))
  {
    PendingComesLast(s);
  }

  lemma RestRaisesBound(s: System, step: Step)
    requires WorkerInv(s) && FifoInv(s) && Enabled(s, step) && !step.Pop? && !step.Start?
    ensures NotStarted(s) <= NotStarted(Apply(s, step))
  {
    hide Ids, IdSet, Increasing;
    PendingComesLast(s);
  }

  lemma ApplyKeepsStartInv(s: System, step: Step)
    requires WorkerInv(s) && FifoInv(s) && StartInv(s) && Enabled(s, step)
    ensures StartInv(Apply(s, step))
  {
    match step {
      case Start(w) => StartRaisesBound(s, w);
      case Pop(w) => PopKeepsBound(s, w);
      case _ =>
        RestRaisesBound(s, step);
        assert Apply(s, step).log.started == s.log.started;
    }
  }

  lemma ApplyKeepsInv(s: System, step: Step)
    requires Inv(s) && Enabled(s, step)
    ensures Inv(Apply(s, step))
  {
    ApplyKeepsWorkerInv(s, step);
    ApplyKeepsFifoInv(s, step);
    ApplyKeepsRegistryInv(s, step);
    ApplyKeepsSweepInv(s, step);
    ApplyKeepsStartInv(s, step);
  }

  lemma {:induction false} RunKeepsInv(s: System, steps: seq<Step>, t: System)
    requires Inv(s) && Runs(s, steps, t)
    ensures Inv(t)
    decreases steps
  {
    if steps != [] {
      ApplyKeepsInv(s, steps[0]);
      RunKeepsInv(Apply(s, steps[0]), steps[1..], t);
    }
  }

  // ---------------------------------------------------------------- the event log

  function AcceptedIds(events: seq<Event>): seq<Id> {
    if events == [] then []
    else
      var last := events[|events| - 1];
      if last.Accepted? then AcceptedIds(events[..|events| - 1]) + [last.id] else AcceptedIds(events[..|events| - 1])
  }

  function StartedIds(events: seq<Event>): seq<Id> {
    if events == [] then []
    else
      var last := events[|events| - 1];
      if last.Started? then StartedIds(events[..|events| - 1]) + [last.id] else StartedIds(events[..|events| - 1])
  }

  function TerminalIds(events: seq<Event>): seq<Id> {
    if events == [] then []
    else
      var last := events[|events| - 1];
      if last.Terminal? then TerminalIds(events[..|events| - 1]) + [last.id] else TerminalIds(events[..|events| - 1])
  }

  function Projected(events: seq<Event>): Log {
    Log(AcceptedIds(events), StartedIds(events), TerminalIds(events))
  }

  /** A submission that did not end as cancelled had been started before its terminal event. */
  ghost predicate StartedFirst(events: seq<Event>) {
    events != [] ==>
      var rest, last := events[..|events| - 1], events[|events| - 1];
      StartedFirst(rest) && (last.Terminal? && last.outcome != Cancelled ==> last.id in StartedIds(rest))
  }

  /** The worker will report an outcome other than a cancellation only for a submission it announced. */
  ghost predicate ReportInv(s: System) {
    s.workers != [] ==>
      match s.workers[0]
      case Running(submission) => submission.id in s.log.started
      case Finishing(id, outcome) => outcome != Cancelled ==> id in s.log.started
      case Announcing(id, outcome) => outcome != Cancelled ==> id in s.log.started
      case _ => true
  }

  ghost predicate LogInv(s: System) {
    s.log == Projected(s.q.events) && StartedFirst(s.q.events)
  }

  lemma OneMoreEvent(events: seq<Event>, event: Event)
    ensures Projected(events + [event]) ==
              match event
              case Accepted(id) => Projected(events).(accepted := AcceptedIds(events) + [id])
              case Started(id) => Projected(events).(started := StartedIds(events) + [id])
              case Terminal(id, _) => Projected(events).(reported := TerminalIds(events) + [id])
    ensures StartedFirst(events + [event]) <==>
              StartedFirst(events) && (event.Terminal? && event.outcome != Cancelled ==> event.id in StartedIds(events))
  {
    assert (events + [event])[..|events|] == events;
  }

  lemma ApplyKeepsReportInv(s: System, step: Step)
    requires WorkerInv(s) && ReportInv(s) && Enabled(s, step)
    ensures ReportInv(Apply(s, step))
  {
  }

  lemma ApplyKeepsLogInv(s: System, step: Step)
    requires WorkerInv(s) && ReportInv(s) && LogInv(s) && Enabled(s, step)
    ensures LogInv(Apply(s, step))
  {
    match step {
      case Submit(_) => OneMoreEvent(s.q.events, Accepted(s.q.next));
      case Start(w) => OneMoreEvent(s.q.events, Started(s.workers[w].submission.id));
      case Announce(w) => OneMoreEvent(s.q.events, Terminal(s.workers[w].id, s.workers[w].outcome));
      case _ => assert Apply(s, step).q.events == s.q.events && Apply(s, step).log == s.log;
    }
  }

  lemma {:induction false} RunKeepsLogInv(s: System, steps: seq<Step>, t: System)
    requires WorkerInv(s) && ReportInv(s) && LogInv(s) && Runs(s, steps, t)
    ensures LogInv(t)
    decreases steps
  {
    if steps != [] {
      ApplyKeepsWorkerInv(s, steps[0]);
      ApplyKeepsReportInv(s, steps[0]);
      ApplyKeepsLogInv(s, steps[0]);
      RunKeepsLogInv(Apply(s, steps[0]), steps[1..], t);
    }
  }

  // ---------------------------------------------------------------- outcomes and messages

  /** What an outcome has to do with how the turn loop of the submission ended, if it was started. */
  ghost predicate OutcomeFits(s: System, id: Id, outcome: Outcome) {
    var returned := Lookup(s.ends, id);
    && (id in s.log.started <==> returned.Some?)
    && (outcome == Completed <==> returned.Some? && returned.value.result == Answered)
    && (outcome == Cancelled <==>
          || returned.None?
          || (returned.value.result.TurnFailed? && (returned.value.result.cancelled || returned.value.flagged)))
    && (outcome == Failed <==>
          && returned.Some?
          && (returned.value.result == CompactionFailed
              || (returned.value.result == TurnFailed(false) && !returned.value.flagged)))
  }

  /** An outcome that is under way fits, and one that is still to come is not anticipated. */
  ghost predicate WorkerFits(s: System) {
    s.workers != [] ==>
      match s.workers[0]
      case Popping => true
      case Judging(submission) => submission.id !in s.ends
      case Starting(submission) => submission.id !in s.ends
      case Running(submission) => submission.id in s.log.started && submission.id !in s.ends
      case Finishing(id, outcome) => OutcomeFits(s, id, outcome)
      case Announcing(id, outcome) => OutcomeFits(s, id, outcome)
  }

  ghost predicate EventsFit(s: System) {
    forall i | 0 <= i < |s.q.events| && s.q.events[i].Terminal? :: OutcomeFits(s, s.q.events[i].id, s.q.events[i].outcome)
  }

  ghost predicate ReturnsInv(s: System) {
    forall id <- s.ends :: id in s.log.started
  }

  lemma {:induction false} TerminalIsReported(events: seq<Event>, i: nat)
    requires i < |events| && events[i].Terminal?
    ensures events[i].id in TerminalIds(events)
  {
    var rest := events[..|events| - 1];
    if i < |rest| {
      TerminalIsReported(rest, i);
    }
  }

  /** A submission that a worker holds has no terminal event yet, and was not started before its check. */
  lemma HeldIsNotReported(s: System)
    requires Inv(s) && LogInv(s) && s.workers != [] && HeldBy(s.workers[0]) != []
    ensures HeldBy(s.workers[0])[0] !in s.log.reported
    ensures s.workers[0].Judging? || s.workers[0].Starting? ==> HeldBy(s.workers[0])[0] !in s.log.started
  {
    var held := HeldBy(s.workers[0])[0];
    assert s.log.accepted[|s.log.reported|] == held;
    assert forall i | 0 <= i < |s.log.reported| :: s.log.reported[i] == s.log.accepted[i];
  }

  lemma PoppedIsNew(s: System, w: nat)
    requires Inv(s) && ReturnsInv(s) && Enabled(s, Pop(w)) && s.q.pending != []
    ensures s.q.pending[0].id !in s.ends
  {
    assert NotStarted(s) == s.q.pending[0].id;
  }

  lemma StepKeepsWorkerFits(s: System, step: Step)
    requires Inv(s) && LogInv(s) && WorkerFits(s) && ReturnsInv(s) && Enabled(s, step)
    ensures WorkerFits(Apply(s, step)) && ReturnsInv(Apply(s, step))
  {
    hide FifoInv, RegistryInv, SweepInv, StartInv, LogInv, Increasing, AllBelow, Ids, IdSet;
    assert WorkerInv(s);
    if s.workers != [] && HeldBy(s.workers[0]) != [] {
      HeldIsNotReported(s);
    }
    if step.Pop? && s.q.pending != [] {
      PoppedIsNew(s, step.worker);
    }
  }

  lemma StepKeepsEventsFit(s: System, step: Step)
    requires Inv(s) && LogInv(s) && WorkerFits(s) && EventsFit(s) && Enabled(s, step)
    ensures EventsFit(Apply(s, step))
  {
    hide FifoInv, RegistryInv, SweepInv, StartInv, LogInv, Increasing, AllBelow, Ids, IdSet;
    var t := Apply(s, step);
    if s.workers != [] && HeldBy(s.workers[0]) != [] {
      HeldIsNotReported(s);
    }
    forall i | 0 <= i < |t.q.events| && t.q.events[i].Terminal?
      ensures OutcomeFits(t, t.q.events[i].id, t.q.events[i].outcome)
    {
      if i < |s.q.events| {
        assert t.q.events[i] == s.q.events[i];
        ReportedIds(s, i);
      }
    }
  }

  lemma ReportedIds(s: System, i: nat)
    requires LogInv(s) && i < |s.q.events| && s.q.events[i].Terminal?
    ensures s.q.events[i].id in s.log.reported
  {
    TerminalIsReported(s.q.events, i);
  }

  lemma {:induction false} RunKeepsFits(s: System, steps: seq<Step>, t: System)
    requires Inv(s) && ReportInv(s) && LogInv(s) && WorkerFits(s) && ReturnsInv(s) && EventsFit(s) && Runs(s, steps, t)
    ensures WorkerFits(t) && EventsFit(t)
    decreases steps
  {
    hide WorkerFits, EventsFit, ReturnsInv, ReportInv, LogInv, Enabled, Apply;
    if steps != [] {
      assert WorkerInv(s);
      ApplyKeepsInv(s, steps[0]);
      ApplyKeepsReportInv(s, steps[0]);
      ApplyKeepsLogInv(s, steps[0]);
      StepKeepsWorkerFits(s, steps[0]);
      StepKeepsEventsFit(s, steps[0]);
      RunKeepsFits(Apply(s, steps[0]), steps[1..], t);
    }
  }

  /** Submissions that wait or are held carry the message they were accepted with. */
  ghost predicate MessagesInv(s: System) {
    && (forall id <- s.messages :: id < s.q.next)
    && (forall i | 0 <= i < |s.q.pending| :: CarriesMessage(s, s.q.pending[i]))
    && (forall i | 0 <= i < |s.workers| ::
          (s.workers[i].Judging? || s.workers[i].Starting? || s.workers[i].Running?) ==> CarriesMessage(s, s.workers[i].submission))
  }

  ghost predicate CarriesMessage(s: System, submission: Submission) {
    submission.id in s.messages && s.messages[submission.id] == submission.message
  }

  lemma StepKeepsMessages(s: System, step: Step)
    requires MessagesInv(s) && Enabled(s, step)
    ensures MessagesInv(Apply(s, step))
  {
    var t := Apply(s, step);
    forall i | 0 <= i < |t.q.pending| ensures CarriesMessage(t, t.q.pending[i]) {
      if i < |s.q.pending| {
        assert CarriesMessage(s, s.q.pending[i]);
      }
      if step.Pop? {
        assert CarriesMessage(s, s.q.pending[i + 1]);
      }
    }
    if step.Pop? && s.q.pending != [] {
      assert CarriesMessage(s, s.q.pending[0]);
    }
  }

  lemma {:induction false} RunKeepsMessages(s: System, steps: seq<Step>, t: System)
    requires MessagesInv(s) && Runs(s, steps, t)
    ensures MessagesInv(t)
    decreases steps
  {
    hide MessagesInv, Enabled, Apply;
    if steps != [] {
      StepKeepsMessages(s, steps[0]);
      RunKeepsMessages(Apply(s, steps[0]), steps[1..], t);
    }
  }

  // ---------------------------------------------------------------- results over all runs

  /**
   In every run a terminal event says how its submission ended. It is completed iff it was started and its
   turn loop answered; cancelled iff it never started, or its turn failed and said so or was flagged by
   then; and failed iff its compaction failed, or its turn did without either.
   */
  lemma OutcomesAreReported(steps: seq<Step>, t: System, i: nat)
    requires Runs(Fresh, steps, t) && i < |t.q.events| && t.q.events[i].Terminal?
    ensures
      var Terminal(id, outcome) := t.q.events[i];
      var started := id in StartedIds(t.q.events);
      && (started <==> id in t.ends)
      && (outcome == Completed <==> started && t.ends[id].result == Answered)
      && (outcome == Cancelled <==>
            !started || (t.ends[id].result.TurnFailed? && (t.ends[id].result.cancelled || t.ends[id].flagged)))
      && (outcome == Failed <==>
            && started
            && (t.ends[id].result == CompactionFailed
                || (t.ends[id].result.TurnFailed? && !t.ends[id].result.cancelled && !t.ends[id].flagged)))
  {
    hide Inv;
    assert Inv(Fresh) by { RunKeepsInv(Fresh, [], Fresh); }
    RunKeepsFits(Fresh, steps, t);
    LogIsProjected(steps, t);
    assert OutcomeFits(t, t.q.events[i].id, t.q.events[i].outcome);
  }

  /** In every run a submission carries the message it was accepted with until its turn loop has ended. */
  lemma MessagesAreKept(steps: seq<Step>, t: System)
    requires Runs(Fresh, steps, t)
    ensures forall i | 0 <= i < |t.q.pending| ::
              Lookup(t.messages, t.q.pending[i].id) == Some(t.q.pending[i].message)
    ensures forall i | 0 <= i < |t.workers| && (t.workers[i].Judging? || t.workers[i].Starting? || t.workers[i].Running?) ::
              Lookup(t.messages, t.workers[i].submission.id) == Some(t.workers[i].submission.message)
  {
    RunKeepsMessages(Fresh, steps, t);
    forall i | 0 <= i < |t.q.pending| ensures Lookup(t.messages, t.q.pending[i].id) == Some(t.q.pending[i].message) {
      assert CarriesMessage(t, t.q.pending[i]);
    }
  }

  lemma {:induction false} UncancelledAscend(submissions: seq<Submission>, cancelled: set<Id>, bound: int)
    requires Increasing(Ids(submissions)) && (submissions != [] ==> bound < submissions[0].id)
    ensures Increasing(Uncancelled(submissions, cancelled))
    ensures forall i | 0 <= i < |Uncancelled(submissions, cancelled)| :: bound < Uncancelled(submissions, cancelled)[i]
    decreases submissions
  {
    if submissions != [] {
      IdsAt(submissions);
      IdsAt(submissions[1..]);
      assert Ids(submissions)[1..] == Ids(submissions[1..]);
      if |submissions| > 1 {
        assert Ids(submissions)[0] < Ids(submissions)[1];
      }
      UncancelledAscend(submissions[1..], cancelled, submissions[0].id);
    }
  }

  /** A snapshot shows the current and the waiting submissions that are not cancelled, in their order. */
  lemma SnapshotShowsTheQueue(steps: seq<Step>, t: System)
    requires Runs(Fresh, steps, t)
    ensures
      var (current, queued) := SnapshotOf(t.q);
      && (forall id: Id :: current == Some(id) <==> t.q.current == Some(id) && id !in t.q.cancelled)
      && Increasing(queued)
      && (forall id: Id :: id in queued <==> id in Ids(t.q.pending) && id !in t.q.cancelled)
  {
    RunKeepsInv(Fresh, steps, t);
    var before := |t.log.reported| + |Unreported(t)|;
    assert t.log.accepted[before..] == Ids(t.q.pending);
    assert Increasing(Ids(t.q.pending)) by {
      forall i, j | 0 <= i < j < |Ids(t.q.pending)| ensures Ids(t.q.pending)[i] < Ids(t.q.pending)[j] {
        assert t.log.accepted[before + i] < t.log.accepted[before + j];
      }
    }
    UncancelledAscend(t.q.pending, t.q.cancelled, -1);
    IdSetMembers(t.q.pending);
    forall id: Id ensures id in Uncancelled(t.q.pending, t.q.cancelled) <==> id in Ids(t.q.pending) && id !in t.q.cancelled {
      UncancelledArePending(t.q.pending, t.q.cancelled, id);
    }
  }

  lemma {:induction false} DrainEventIds(
      submissions: seq<Submission>, cancelled: set<Id>, during: Id -> set<Id>, results: Id -> TurnResult, i: nat)
    requires i < |DrainEvents(submissions, cancelled, during, results)|
    ensures !DrainEvents(submissions, cancelled, during, results)[i].Accepted?
    ensures DrainEvents(submissions, cancelled, during, results)[i].id in Ids(submissions)
  {
    if submissions != [] {
      var id := submissions[0].id;
      var first := RunEvents(id, cancelled, during(id), results);
      if i >= |first| {
        DrainEventIds(submissions[1..], FlaggedBy(id, cancelled, during(id)), during, results, i - |first|);
      }
    }
  }

  /**
   What a drained queue reports: a submission is completed iff it was started and its turn loop answered;
   cancelled iff it was not started, or its turn failed and said so or was flagged meanwhile; else failed.
   Those that were flagged from the beginning are not started.
   */
  lemma {:induction false} DrainReports(
      submissions: seq<Submission>, cancelled: set<Id>, during: Id -> set<Id>, results: Id -> TurnResult, i: nat)
    requires Increasing(Ids(submissions))
    requires i < |DrainEvents(submissions, cancelled, during, results)|
    requires DrainEvents(submissions, cancelled, during, results)[i].Terminal?
    ensures
      var events := DrainEvents(submissions, cancelled, during, results);
      var Terminal(id, outcome) := events[i];
      var started := Started(id) in events;
      && (id in cancelled ==> !started)
      && (outcome == Completed <==> started && results(id) == Answered)
      && (outcome == Cancelled <==> !started || (results(id).TurnFailed? && (results(id).cancelled || id in during(id))))
  {
    var events := DrainEvents(submissions, cancelled, during, results);
    var id, more := submissions[0].id, during(submissions[0].id);
    var first := RunEvents(id, cancelled, more, results);
    var rest := DrainEvents(submissions[1..], FlaggedBy(id, cancelled, more), during, results);
    assert events == first + rest && Ids(submissions)[1..] == Ids(submissions[1..]);
    assert Increasing(Ids(submissions[1..])) by {
      forall j, k | 0 <= j < k < |Ids(submissions[1..])| ensures Ids(submissions[1..])[j] < Ids(submissions[1..])[k] {
        assert Ids(submissions)[j + 1] < Ids(submissions)[k + 1];
      }
    }
    forall j: nat | j < |rest| ensures rest[j].id in Ids(submissions[1..]) && rest[j].id != id {
      DrainEventIds(submissions[1..], FlaggedBy(id, cancelled, more), during, results, j);
      var k :| 0 <= k < |Ids(submissions[1..])| && Ids(submissions[1..])[k] == rest[j].id;
      assert Ids(submissions)[0] < Ids(submissions)[k + 1];
    }
    if i < |first| {
      assert Started(id) in events <==> Started(id) in first;
    } else {
      DrainReports(submissions[1..], FlaggedBy(id, cancelled, more), during, results, i - |first|);
      assert Started(events[i].id) in events <==> Started(events[i].id) in rest;
    }
  }

  /** There is never more than one worker, and pending work is never left without one (no lost wakeup). */
  lemma OneWorkerAndNoLostWakeup(steps: seq<Step>, t: System)
    requires Runs(Fresh, steps, t)
    ensures |t.workers| <= 1
    ensures t.workers != [] ==> t.q.workerRunning
    ensures t.q.pending != [] && !t.aborted ==> t.q.workerRunning && t.workers != []
  {
    RunKeepsInv(Fresh, steps, t);
  }

  /**
   Acceptances, starts and terminal events each come in increasing id order, across worker hand-offs
   too; terminal events follow the order of acceptance with at most one submission under way; and a
   submission that does not end as cancelled has been started before.
   */
  lemma EventsAreFifo(steps: seq<Step>, t: System)
    requires Runs(Fresh, steps, t)
    ensures Increasing(AcceptedIds(t.q.events)) && Increasing(StartedIds(t.q.events)) && Increasing(TerminalIds(t.q.events))
    ensures |Unreported(t)| <= 1
    ensures AcceptedIds(t.q.events) == TerminalIds(t.q.events) + Unreported(t) + Ids(t.q.pending)
    ensures StartedFirst(t.q.events)
  {
    RunKeepsInv(Fresh, steps, t);
    RunKeepsLogInv(Fresh, steps, t);
    assert t.log.reported == t.log.accepted[..|t.log.reported|];
  }

  ghost predicate CountsUp(s: System) {
    s.q.next == |s.log.accepted| + 1 && forall i | 0 <= i < |s.log.accepted| :: s.log.accepted[i] == i + 1
  }

  lemma {:induction false} RunCountsUp(s: System, steps: seq<Step>, t: System)
    requires CountsUp(s) && Runs(s, steps, t)
    ensures CountsUp(t)
    decreases steps
  {
    if steps != [] {
      RunCountsUp(Apply(s, steps[0]), steps[1..], t);
    }
  }

  /** Submissions are numbered 1, 2, 3, … as they are accepted. */
  lemma IdsAreConsecutive(steps: seq<Step>, t: System, i: nat)
    requires Runs(Fresh, steps, t) && i < |AcceptedIds(t.q.events)|
    ensures AcceptedIds(t.q.events)[i] == i + 1
  {
    RunCountsUp(Fresh, steps, t);
    LogIsProjected(steps, t);
  }

  /** Once the queue has drained without an abort, each accepted submission has exactly one terminal event. */
  lemma DrainedQueueReportedEverything(steps: seq<Step>, t: System)
    requires Runs(Fresh, steps, t) && t.workers == [] && !t.aborted
    ensures TerminalIds(t.q.events) == AcceptedIds(t.q.events)
  {
    OneWorkerAndNoLostWakeup(steps, t);
    EventsAreFifo(steps, t);
    RunKeepsInv(Fresh, steps, t);
  }

  /** The registry holds exactly the pending and the current submission, aborts included. */
  lemma RegistryIsPendingPlusCurrent(steps: seq<Step>, t: System)
    requires Runs(Fresh, steps, t)
    ensures forall id :: id in t.q.active <==> id in Ids(t.q.pending) || t.q.current == Some(id)
  {
    RunKeepsInv(Fresh, steps, t);
    IdSetMembers(t.q.pending);
  }

  lemma FinishedIsGone(s: System, w: nat)
    requires WorkerInv(s) && FifoInv(s) && RegistryInv(s.q)
    requires w < |s.workers| && s.workers[w].Announcing?
    ensures s.workers[w].id !in s.q.active && SnapshotOf(s.q).0 == None && s.workers[w].id !in SnapshotOf(s.q).1
  {
    PendingComesLast(s);
    assert Unreported(s) == [s.workers[w].id] && s.q.current == None;
    UncancelledArePending(s.q.pending, s.q.cancelled, s.workers[w].id);
  }

  /** When a terminal event is about to be published, nothing can find its submission any more. */
  lemma TerminalEventComesLast(steps: seq<Step>, t: System, w: nat)
    requires Runs(Fresh, steps, t)
    requires w < |t.workers| && t.workers[w].Announcing?
    ensures
      var id := t.workers[w].id;
      && !Enabled(t, FindToCancel(id))
      && SnapshotOf(t.q).0 != Some(id) && id !in SnapshotOf(t.q).1
  {
    hide SnapshotOf, Increasing, SweepInv, StartInv;
    RunKeepsInv(Fresh, steps, t);
    FinishedIsGone(t, w);
  }

  /** After admission closes nothing is accepted. */
  lemma {:induction false} NothingAcceptedAfterClosing(s: System, steps: seq<Step>, t: System)
    requires s.q.shutdown && Runs(s, steps, t)
    ensures t.q.shutdown && t.log.accepted == s.log.accepted
    decreases steps
  {
    if steps != [] {
      NothingAcceptedAfterClosing(Apply(s, steps[0]), steps[1..], t);
    }
  }

  /** The cancel-all pass that follows the closing of admission is complete. */
  ghost predicate SweptClean(s: System) {
    s.sweep == Some({})
  }

  /** Uninterrupted, cancelling a submission that can be found flags it, and nothing else. */
  lemma StepsOfACancellation(s: System, id: Id)
    requires Enabled(s, FindToCancel(id)) && id !in s.found
    ensures
      var found := Apply(s, FindToCancel(id));
      && Enabled(found, FlagFound(id))
      && Apply(found, FlagFound(id)) == s.(q := s.q.(cancelled := s.q.cancelled + {id}))
  {
    assert s.found + {id} - {id} == s.found;
  }

  /** The pass takes in what can be found when it begins, and each step of it flags one of these. */
  lemma StepsOfTheSweep(s: System, id: Id)
    ensures Enabled(s, BeginSweep) ==> Apply(s, BeginSweep).sweep == Some(s.q.active)
    ensures
      Enabled(s, SweepOne(id)) ==>
        var t := Apply(s, SweepOne(id));
        t.q == s.q.(cancelled := s.q.cancelled + {id}) && t.sweep == Some(s.sweep.value - {id})
    ensures Enabled(s, CloseAdmission) && Apply(s, CloseAdmission) == s.(q := s.q.(shutdown := true))
  {
  }

  /** A completed pass leaves every submission that can still be found cancelled. */
  lemma SweepCancelsEverything(steps: seq<Step>, t: System)
    requires Runs(Fresh, steps, t) && SweptClean(t)
    ensures t.q.shutdown && t.q.active <= t.q.cancelled
  {
    RunKeepsInv(Fresh, steps, t);
  }

  /** The submission, if any, whose worker has passed the cancellation check and not announced the start. */
  function PastTheCheck(s: System): seq<Id> {
    if s.workers != [] && s.workers[0].Starting? then [s.workers[0].submission.id] else []
  }

  /** After the pass a step either announces that start, or starts nothing and lets nothing past the check. */
  lemma SweptStep(s: System, step: Step)
    requires WorkerInv(s) && RegistryInv(s.q) && SweepInv(s) && SweptClean(s) && Enabled(s, step)
    ensures SweptClean(Apply(s, step))
    ensures
      var t := Apply(s, step);
      || (t.log.started == s.log.started && (PastTheCheck(t) == [] || PastTheCheck(t) == PastTheCheck(s)))
      || (t.log.started == s.log.started + PastTheCheck(s) && PastTheCheck(t) == [])
  {
  }

  /**
   After the pass, only the submission whose worker stands between its cancellation check and the
   announcement can still start; nothing else ever does.
   */
  lemma {:induction false} NothingStartsAfterTheSweep(s: System, steps: seq<Step>, t: System)
    requires Inv(s) && SweptClean(s) && Runs(s, steps, t)
    ensures t.log.started == s.log.started || t.log.started == s.log.started + PastTheCheck(s)
    decreases steps
  {
    if steps != [] {
      SweptStep(s, steps[0]);
      ApplyKeepsInv(s, steps[0]);
      NothingStartsAfterTheSweep(Apply(s, steps[0]), steps[1..], t);
    }
  }

  /** Shutdown, from any reachable state: nothing more is accepted, and at most that one submission starts. */
  lemma ShutdownStopsTheQueue(before: seq<Step>, s: System, after: seq<Step>, t: System)
    requires Runs(Fresh, before, s) && SweptClean(s) && Runs(s, after, t)
    ensures AcceptedIds(t.q.events) == AcceptedIds(s.q.events)
    ensures
      || StartedIds(t.q.events) == StartedIds(s.q.events)
      || StartedIds(t.q.events) == StartedIds(s.q.events) + PastTheCheck(s)
  {
    LogIsProjected(before, s);
    RunKeepsInv(Fresh, before, s);
    NothingAcceptedAfterClosing(s, after, t);
    NothingStartsAfterTheSweep(s, after, t);
    RunsCompose(Fresh, before, s, after, t);
    LogIsProjected(before + after, t);
  }

  /** Flagged before its worker's check, and not started. */
  ghost predicate CancelledInTime(s: System, id: Id) {
    id in s.q.cancelled && id !in PastTheCheck(s) && id !in s.log.started
  }

  lemma {:induction false} StaysCancelled(s: System, steps: seq<Step>, t: System, id: Id)
    requires WorkerInv(s) && CancelledInTime(s, id) && Runs(s, steps, t)
    ensures CancelledInTime(t, id)
    decreases steps
  {
    if steps != [] {
      ApplyKeepsWorkerInv(s, steps[0]);
      StaysCancelled(Apply(s, steps[0]), steps[1..], t, id);
    }
  }

  lemma {:induction false} UnstartedEndsCancelled(events: seq<Event>, id: Id, i: nat)
    requires StartedFirst(events) && id !in StartedIds(events)
    requires i < |events| && events[i].Terminal? && events[i].id == id
    ensures events[i].outcome == Cancelled
  {
    var rest := events[..|events| - 1];
    if i < |rest| {
      UnstartedEndsCancelled(rest, id, i);
    }
  }

  /**
   A submission that is flagged before its worker checks it, from any reachable state and whatever follows,
   is never started, and if it gets a terminal event, that says it was cancelled.
   */
  lemma CancelledInTimeNeverStarts(before: seq<Step>, s: System, after: seq<Step>, t: System, id: Id)
    requires Runs(Fresh, before, s) && Runs(s, after, t)
    requires id in s.q.cancelled && id !in PastTheCheck(s) && id !in StartedIds(s.q.events)
    ensures id !in StartedIds(t.q.events)
    ensures
      forall i: nat | i < |t.q.events| && t.q.events[i].Terminal? && t.q.events[i].id == id ::
        t.q.events[i].outcome == Cancelled
  {
    hide StartedFirst, StartedIds, Enabled, Apply;
    RunKeepsInv(Fresh, before, s);
    LogIsProjected(before, s);
    StaysCancelled(s, after, t, id);
    RunsCompose(Fresh, before, s, after, t);
    LogIsProjected(before + after, t);
    EventsAreFifo(before + after, t);
    forall i: nat | i < |t.q.events| && t.q.events[i].Terminal? && t.q.events[i].id == id
      ensures t.q.events[i].outcome == Cancelled
    {
      UnstartedEndsCancelled(t.q.events, id, i);
    }
  }

  lemma LogIsProjected(steps: seq<Step>, t: System)
    requires Runs(Fresh, steps, t)
    ensures t.log == Projected(t.q.events)
  {
    RunKeepsLogInv(Fresh, steps, t);
  }

  lemma {:induction false} RunsCompose(s: System, first: seq<Step>, t: System, second: seq<Step>, u: System)
    requires Runs(s, first, t) && Runs(t, second, u)
    ensures Runs(s, first + second, u)
    decreases first
  {
    if first == [] {
      assert first + second == second;
    } else {
      assert (first + second)[1..] == first[1..] + second;
      RunsCompose(Apply(s, first[0]), first[1..], t, second, u);
    }
  }
}
