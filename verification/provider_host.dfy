/**
 The provider host: starters that race to register a provider process, and the shutdown that races with
 them. The lifecycle lock is not held while a process starts.
 */
module ProviderHost {
  import opened Wrappers

  type ProviderId = nat
  type ProcessId = nat

  datatype ProviderError = Shutdown | UnknownProvider | StartFailed

  // ---------------------------------------------------------------- the locked sections

  datatype Lifecycle = Lifecycle(isShutdown: bool, processes: map<ProviderId, ProcessId>)

  /** What the first section decides: an answer, or that a process has to be started. */
  datatype Check = Answer(result: Result<ProcessId, ProviderError>) | MustStart

  /** What the second section decides about the process that was started. */
  datatype Race = Won | Lost(replacement: Option<ProcessId>)

  function Healthy(l: Lifecycle, provider: ProviderId, failed: set<ProcessId>): Option<ProcessId> {
    if provider in l.processes && l.processes[provider] !in failed then Some(l.processes[provider]) else None
  }

  function Checked(l: Lifecycle, provider: ProviderId, known: bool, failed: set<ProcessId>): Check {
    if l.isShutdown then Answer(Err(Shutdown))
    else if Healthy(l, provider, failed).Some? then Answer(Ok(Healthy(l, provider, failed).value))
    else if !known then Answer(Err(UnknownProvider))
    else MustStart
  }

  function Raced(l: Lifecycle, provider: ProviderId, failed: set<ProcessId>): Race {
    if l.isShutdown then Lost(None)
    else if Healthy(l, provider, failed).Some? then Lost(Healthy(l, provider, failed))
    else Won
  }

  function Registered(l: Lifecycle, provider: ProviderId, process: ProcessId, failed: set<ProcessId>): Lifecycle {
    if Raced(l, provider, failed).Won? then l.(processes := l.processes[provider := process]) else l
  }

  class Host {
    var isShutdown: bool
    var processes: map<ProviderId, ProcessId>

    ghost function View(): Lifecycle
      reads this
    {
      Lifecycle(isShutdown, processes)
    }

    constructor ()
      ensures View() == Lifecycle(false, map[])
    {
      isShutdown, processes := false, map[];
    }

    method CheckProcess(provider: ProviderId, known: bool, failed: set<ProcessId>) returns (check: Check)
      ensures check == Checked(View(), provider, known, failed)
    {
      if isShutdown {
        return Answer(Err(Shutdown));
      }
      var healthy := Healthy(Lifecycle(isShutdown, processes), provider, failed);
      if healthy.Some? {
        return Answer(Ok(healthy.value));
      }
      check := if known then MustStart else Answer(Err(UnknownProvider));
    }

    method RegisterProcess(provider: ProviderId, process: ProcessId, failed: set<ProcessId>) returns (race: Race)
      modifies this`processes
      ensures race == Raced(old(View()), provider, failed)
      ensures View() == Registered(old(View()), provider, process, failed)
    {
      race := Raced(Lifecycle(isShutdown, processes), provider, failed);
      if race.Won? {
        processes := processes[provider := process];
      }
    }

    method TakeProcesses() returns (taken: set<ProcessId>)
      modifies this
      ensures View() == Lifecycle(true, if old(isShutdown) then old(processes) else map[])
      ensures taken == if old(isShutdown) then {} else old(processes).Values
    {
      if isShutdown {
        return {};
      }
      isShutdown := true;
      taken := processes.Values;
      processes := map[];
    }
  }

  // ---------------------------------------------------------------- runs

  datatype Starter =
    | Starting(provider: ProviderId)
    | Holding(provider: ProviderId, process: ProcessId)
    | Losing(process: ProcessId, replacement: Option<ProcessId>)
    | Done(result: Result<ProcessId, ProviderError>)

  /** Where a started process is. */
  datatype Place =
    | InHand(starter: nat)
    | Serving(provider: ProviderId)
    | Replaced
    | Drained
    | ShutByStarter

  /** `place` records every process ever started; `failed` only grows. */
  datatype State = State(
    lifecycle: Lifecycle, starters: seq<Starter>, failed: set<ProcessId>, stopped: set<ProcessId>,
    place: map<ProcessId, Place>)

  datatype Step =
    | Begin(provider: ProviderId, known: bool)
    | Start(starter: nat, process: ProcessId, ok: bool)
    | Register(starter: nat)
    | ShutOwn(starter: nat)
    | Fail(process: ProcessId)
    | Take
    | StopDrained(process: ProcessId)

  predicate Enabled(s: State, step: Step) {
    match step
    case Begin(_, _) => true
    case Start(i, process, _) => i < |s.starters| && s.starters[i].Starting? && process !in s.place
    case Register(i) => i < |s.starters| && s.starters[i].Holding?
    case ShutOwn(i) => i < |s.starters| && s.starters[i].Losing?
    case Fail(process) => process in s.place
    case Take => true
    case StopDrained(process) => process in s.place && s.place[process].Drained?
  }

  function Drain(place: map<ProcessId, Place>): map<ProcessId, Place> {
    map process | process in place :: if place[process].Serving? then Drained else place[process]
  }

  function AfterRegister(s: State, i: nat): State
    requires i < |s.starters| && s.starters[i].Holding?
  {
    var Holding(provider, process) := s.starters[i];
    var race := Raced(s.lifecycle, provider, s.failed);
    if race.Lost? then s.(starters := s.starters[i := Losing(process, race.replacement)])
    else
      var place := if provider in s.lifecycle.processes then s.place[s.lifecycle.processes[provider] := Replaced] else s.place;
      s.(lifecycle := Registered(s.lifecycle, provider, process, s.failed),
         starters := s.starters[i := Done(Ok(process))],
         place := place[process := Serving(provider)])
  }

  function Apply(s: State, step: Step): State
    requires Enabled(s, step)
  {
    match step
    case Begin(provider, known) =>
      var check := Checked(s.lifecycle, provider, known, s.failed);
      s.(starters := s.starters + [if check.Answer? then Done(check.result) else Starting(provider)])
    case Start(i, process, ok) =>
      if ok then s.(starters := s.starters[i := Holding(s.starters[i].provider, process)], place := s.place[process := InHand(i)])
      else s.(starters := s.starters[i := Done(Err(StartFailed))])
    case Register(i) => AfterRegister(s, i)
    case ShutOwn(i) =>
      var Losing(process, replacement) := s.starters[i];
      s.(starters := s.starters[i := Done(if replacement.Some? then Ok(replacement.value) else Err(Shutdown))],
         stopped := s.stopped + {process}, place := s.place[process := ShutByStarter])
    case Fail(process) => s.(failed := s.failed + {process})
    case Take =>
      if s.lifecycle.isShutdown then s
      else s.(lifecycle := Lifecycle(true, map[]), place := Drain(s.place))
    case StopDrained(process) => s.(stopped := s.stopped + {process})
  }

  ghost predicate Runs(s: State, steps: seq<Step>, t: State)
    decreases steps
  {
    if steps == [] then s == t
    else Enabled(s, steps[0]) && Runs(Apply(s, steps[0]), steps[1..], t)
  }

  const Initial: State := State(Lifecycle(false, map[]), [], {}, {}, map[])

  // ---------------------------------------------------------------- invariant

  /** The starter that holds a process, if it holds one. */
  function Held(starter: Starter): Option<ProcessId> {
    match starter
    case Holding(_, process) => Some(process)
    case Losing(process, _) => Some(process)
    case _ => None
  }

  ghost predicate HandsInv(s: State) {
    && (forall i: nat | i < |s.starters| && Held(s.starters[i]).Some? ::
          var process := Held(s.starters[i]).value;
          process in s.place && s.place[process] == InHand(i))
    && (forall process <- s.place | s.place[process].InHand? ::
          var i := s.place[process].starter;
          i < |s.starters| && Held(s.starters[i]) == Some(process))
  }

  ghost predicate ServingInv(s: State) {
    && (forall provider <- s.lifecycle.processes ::
          var process := s.lifecycle.processes[provider];
          process in s.place && s.place[process] == Serving(provider))
    && (forall process <- s.place | s.place[process].Serving? ::
          var provider := s.place[process].provider;
          provider in s.lifecycle.processes && s.lifecycle.processes[provider] == process)
  }

  ghost predicate EndsInv(s: State) {
    && (s.lifecycle.isShutdown ==> s.lifecycle.processes == map[])
    && (forall process <- s.place ::
          && (s.place[process].Replaced? ==> process in s.failed)
          && (s.place[process].Drained? ==> s.lifecycle.isShutdown)
          && (s.place[process].ShutByStarter? ==> process in s.stopped))
    && (forall process <- s.stopped :: process in s.place && (s.place[process].Drained? || s.place[process].ShutByStarter?))
  }

  ghost predicate Inv(s: State) {
    HandsInv(s) && ServingInv(s) && EndsInv(s)
  }

  lemma RegisterKeepsHands(s: State, i: nat)
    requires HandsInv(s) && ServingInv(s) && Enabled(s, Register(i))
    ensures HandsInv(AfterRegister(s, i))
  {
    assert Held(s.starters[i]) == Some(s.starters[i].process);
  }

  lemma RegisterKeepsServing(s: State, i: nat)
    requires HandsInv(s) && ServingInv(s) && Enabled(s, Register(i))
    ensures ServingInv(AfterRegister(s, i))
  {
    assert Held(s.starters[i]) == Some(s.starters[i].process);
  }

  lemma RegisterKeepsEnds(s: State, i: nat)
    requires HandsInv(s) && ServingInv(s) && EndsInv(s) && Enabled(s, Register(i))
    ensures EndsInv(AfterRegister(s, i))
  {
    assert Held(s.starters[i]) == Some(s.starters[i].process);
  }

  lemma RegisterKeepsInv(s: State, i: nat)
    requires Inv(s) && Enabled(s, Register(i))
    ensures Inv(AfterRegister(s, i))
  {
    hide AfterRegister, HandsInv, ServingInv, EndsInv;
    RegisterKeepsHands(s, i);
    RegisterKeepsServing(s, i);
    RegisterKeepsEnds(s, i);
  }

  lemma TakeKeepsInv(s: State)
    requires Inv(s)
    ensures Inv(Apply(s, Take))
  {
  }

  lemma BeginKeepsInv(s: State, step: Step)
    requires Inv(s) && Enabled(s, step) && step.Begin?
    ensures Inv(Apply(s, step))
  {
  }

  lemma StartKeepsInv(s: State, step: Step)
    requires Inv(s) && Enabled(s, step) && step.Start?
    ensures Inv(Apply(s, step))
  {
    assert Held(s.starters[step.starter]).None?;
  }

  lemma ShutOwnKeepsInv(s: State, step: Step)
    requires Inv(s) && Enabled(s, step) && step.ShutOwn?
    ensures Inv(Apply(s, step))
  {
    assert Held(s.starters[step.starter]) == Some(s.starters[step.starter].process);
  }

  lemma ApplyKeepsInv(s: State, step: Step)
    requires Inv(s) && Enabled(s, step)
    ensures Inv(Apply(s, step))
  {
    match step
    case Begin(_, _) => BeginKeepsInv(s, step);
    case Start(_, _, _) => StartKeepsInv(s, step);
    case Register(i) => RegisterKeepsInv(s, i);
    case ShutOwn(_) => ShutOwnKeepsInv(s, step);
    case Take => TakeKeepsInv(s);
    case Fail(_) =>
    case StopDrained(_) =>
  }

  lemma {:induction false} RunKeepsInv(s: State, steps: seq<Step>, t: State)
    requires Inv(s) && Runs(s, steps, t)
    ensures Inv(t)
    decreases steps
  {
    if steps != [] {
      ApplyKeepsInv(s, steps[0]);
      RunKeepsInv(Apply(s, steps[0]), steps[1..], t);
    }
  }

  // ---------------------------------------------------------------- results

  /** A healthy registered process is never overwritten: only shutdown removes it. */
  lemma HealthyIsNeverOverwritten(steps: seq<Step>, s: State, step: Step, provider: ProviderId)
    requires Runs(Initial, steps, s) && Enabled(s, step)
    requires Healthy(s.lifecycle, provider, s.failed).Some?
    ensures
      var next := Apply(s, step).lifecycle;
      if step.Take? then next == Lifecycle(true, map[])
      else provider in next.processes && next.processes[provider] == s.lifecycle.processes[provider]
  {
    RunKeepsInv(Initial, steps, s);
  }

  /** Once shutdown has taken the processes, none is registered again. */
  lemma {:induction false} NothingIsRegisteredAfterShutdown(before: seq<Step>, s: State, after: seq<Step>, t: State)
    requires Runs(Initial, before, s) && s.lifecycle.isShutdown
    requires Runs(s, after, t)
    ensures t.lifecycle == Lifecycle(true, map[])
    decreases after
  {
    RunKeepsInv(Initial, before, s);
    if after != [] {
      var next := Apply(s, after[0]);
      RunSnoc(Initial, before, s, after[0]);
      assert next.lifecycle.isShutdown;
      NothingIsRegisteredAfterShutdown(before + [after[0]], next, after[1..], t);
    }
  }

  lemma {:induction false} RunSnoc(s: State, steps: seq<Step>, t: State, step: Step)
    requires Runs(s, steps, t) && Enabled(t, step)
    ensures Runs(s, steps + [step], Apply(t, step))
    decreases steps
  {
    if steps == [] {
      assert [step][1..] == [];
    } else {
      assert (steps + [step])[1..] == steps[1..] + [step];
      RunSnoc(Apply(s, steps[0]), steps[1..], t, step);
    }
  }

  /** Exactly one starter has the process in hand, before it is registered or after it lost the race. */
  ghost predicate HeldBy(s: State, process: ProcessId, i: nat) {
    i < |s.starters| && Held(s.starters[i]) == Some(process)
  }

  ghost predicate Serves(s: State, process: ProcessId, provider: ProviderId) {
    provider in s.lifecycle.processes && s.lifecycle.processes[provider] == process
  }

  /**
   No started process is lost sight of. It is in the hand of its starter, or registered, and by one of
   them only; or it has failed and was replaced, or shutdown took it, or its losing starter shut it down.
   */
  lemma EveryProcessIsAccountedFor(steps: seq<Step>, t: State, process: ProcessId)
    requires Runs(Initial, steps, t) && process in t.place
    ensures match t.place[process]
            case InHand(i) => HeldBy(t, process, i)
            case Serving(provider) => Serves(t, process, provider)
            case Replaced => process in t.failed
            case Drained => t.lifecycle.isShutdown
            case ShutByStarter => process in t.stopped
    ensures forall i: nat :: HeldBy(t, process, i) <==> t.place[process] == InHand(i)
    ensures forall provider: ProviderId :: Serves(t, process, provider) <==> t.place[process] == Serving(provider)
  {
    RunKeepsInv(Initial, steps, t);
  }

  /** Nobody is between starting a process and the end of its race, and the taken processes were stopped. */
  ghost predicate Settled(s: State) {
    && (forall i: nat | i < |s.starters| :: Held(s.starters[i]).None?)
    && (forall process <- s.place | s.place[process].Drained? :: process in s.stopped)
  }

  /** After a shutdown that has settled, every process ever started has been shut down or had failed. */
  lemma NoProcessSurvivesShutdown(steps: seq<Step>, t: State, process: ProcessId)
    requires Runs(Initial, steps, t) && t.lifecycle.isShutdown && Settled(t)
    requires process in t.place
    ensures process in t.stopped || process in t.failed
  {
    EveryProcessIsAccountedFor(steps, t, process);
    RunKeepsInv(Initial, steps, t);
    if t.place[process].InHand? {
      assert HeldBy(t, process, t.place[process].starter);
    }
  }

  /** A process that shutdown or its starter stops was taken out of service first. */
  lemma OnlyUnregisteredProcessesAreStopped(steps: seq<Step>, t: State, process: ProcessId, provider: ProviderId)
    requires Runs(Initial, steps, t) && Serves(t, process, provider)
    ensures process in t.place && process !in t.stopped
  {
    RunKeepsInv(Initial, steps, t);
  }

  /** Whom a starter is answered with: the process that serves its provider when the race is decided. */
  lemma RaceIsAnsweredByTheServingProcess(steps: seq<Step>, s: State, i: nat)
    requires Runs(Initial, steps, s) && Enabled(s, Register(i))
    ensures
      var t := Apply(s, Register(i));
      var Holding(provider, process) := s.starters[i];
      match t.starters[i]
      case Done(result) => result == Ok(process) && Serves(t, process, provider) && !t.lifecycle.isShutdown
      case Losing(own, replacement) =>
        && own == process && t.lifecycle == s.lifecycle
        && (replacement.None? <==> t.lifecycle.isShutdown)
        && (replacement.Some? ==> Serves(t, replacement.value, provider) && replacement.value !in t.failed)
      case _ => false
  {
    RunKeepsInv(Initial, steps, s);
  }

  /**
   What a request for a provider is answered with: that the host is shut down, the healthy process that serves
   it, or that it is unknown, in this order; otherwise a process has to be started.
   */
  lemma BeginIsAnswered(s: State, provider: ProviderId, known: bool, process: ProcessId)
    ensures
      var t := Apply(s, Begin(provider, known));
      var serving := Serves(s, process, provider) && process !in s.failed;
      && |t.starters| == |s.starters| + 1 && t.lifecycle == s.lifecycle && t.place == s.place
      && var answer := t.starters[|s.starters|];
         && (answer == Done(Err(Shutdown)) <==> s.lifecycle.isShutdown)
         && (!s.lifecycle.isShutdown ==> (answer == Done(Ok(process)) <==> serving))
         && (!s.lifecycle.isShutdown && !(exists p :: Serves(s, p, provider) && p !in s.failed) ==>
               answer == if known then Starting(provider) else Done(Err(UnknownProvider)))
  {
    var answer := Apply(s, Begin(provider, known)).starters[|s.starters|];
    if provider in s.lifecycle.processes {
      assert Serves(s, s.lifecycle.processes[provider], provider);
    }
  }

  /** A starter that lost is answered with its replacement once its own process is shut down, if there is one. */
  lemma LoserIsAnswered(s: State, i: nat)
    requires Enabled(s, ShutOwn(i))
    ensures
      var Losing(process, replacement) := s.starters[i];
      var t := Apply(s, ShutOwn(i));
      && process in t.stopped && t.lifecycle == s.lifecycle
      && (forall p: ProcessId :: t.starters[i] == Done(Ok(p)) <==> replacement == Some(p))
      && (t.starters[i] == Done(Err(Shutdown)) <==> replacement.None?)
  {
  }

  /** Nobody is told that the host is shut down unless it is. */
  ghost predicate TruthfulInv(s: State) {
    forall i: nat | i < |s.starters| ::
      (s.starters[i] == Done(Err(Shutdown)) || (s.starters[i].Losing? && s.starters[i].replacement.None?)) ==>
        s.lifecycle.isShutdown
  }

  lemma {:induction false} RunKeepsTruthful(s: State, steps: seq<Step>, t: State)
    requires TruthfulInv(s) && Runs(s, steps, t)
    ensures TruthfulInv(t)
    decreases steps
  {
    if steps != [] {
      RunKeepsTruthful(Apply(s, steps[0]), steps[1..], t);
    }
  }

  lemma ShutdownIsAnsweredTruthfully(steps: seq<Step>, t: State, i: nat)
    requires Runs(Initial, steps, t) && i < |t.starters| && t.starters[i] == Done(Err(Shutdown))
    ensures t.lifecycle.isShutdown
  {
    RunKeepsTruthful(Initial, steps, t);
  }
}
