/**
 The question registry. A registered question can be claimed by four parties: the client's answer, the
 client's dismissal, the owner's cancellation and the drain at shutdown. The registry lock decides who
 claims it; publishing `QuestionResolved` and waking the waiter happen afterwards, outside the lock.
 */
module Questions {
  import opened Wrappers

  type RequestId = nat

  datatype Source = Submission(id: nat) | Agent(id: nat)

  datatype Request = Request(id: RequestId, source: Source, questions: seq<string>)

  datatype Resolution = Answered(answers: map<string, string>) | Dismissed | Cancelled

  const MAX_DISMISSES: nat := 3
  const MAX_ANSWER_CHARS: nat := 2000
  const MAX_SERIALIZED_BYTES: nat := 64 * 1024
  const U8_MAX: nat := 255

  datatype Registry = Registry(pending: map<RequestId, Request>, dismisses: map<Source, nat>, next: RequestId)

  // ---------------------------------------------------------------- critical sections

  /** The characters `trim` removes: those with the Unicode property `White_Space`. */
  predicate IsWhitespace(c: char) {
    var code := c as int;
    || 0x9 <= code <= 0xD || code == 0x20 || code == 0x85 || code == 0xA0 || code == 0x1680
    || 0x2000 <= code <= 0x200A || code == 0x2028 || code == 0x2029 || code == 0x202F || code == 0x205F
    || code == 0x3000
  }

  predicate Blank(text: string) {
    forall i | 0 <= i < |text| :: IsWhitespace(text[i])
  }

  /** One non-blank, bounded answer for each question and for nothing else. */
  predicate ValidAnswers(request: Request, answers: map<string, string>, encoded: nat) {
    && answers.Keys == (set question | question in request.questions)
    && (forall question <- answers :: !Blank(answers[question]) && |answers[question]| <= MAX_ANSWER_CHARS)
    && encoded <= MAX_SERIALIZED_BYTES
  }

  predicate Refused(r: Registry, source: Source) {
    LookupOr(r.dismisses, source, 0) >= MAX_DISMISSES
  }

  /** A refused source consumes no id; an oversized request does. */
  function Registered(r: Registry, source: Source, questions: seq<string>, encoded: nat): Registry {
    if Refused(r, source) then r
    else if encoded > MAX_SERIALIZED_BYTES then r.(next := r.next + 1)
    else r.(next := r.next + 1, pending := r.pending[r.next := Request(r.next, source, questions)])
  }

  function SaturatingIncrement(n: nat): nat {
    if n < U8_MAX then n + 1 else U8_MAX
  }

  /** Claiming a pending request for a resolution, with the effect on its source's dismissal counter. */
  function Claimed(r: Registry, id: RequestId, resolution: Resolution): Registry
    requires id in r.pending
  {
    var source := r.pending[id].source;
    var dismisses :=
      match resolution
      case Answered(_) => r.dismisses - {source}
      case Dismissed => r.dismisses[source := SaturatingIncrement(LookupOr(r.dismisses, source, 0))]
      case Cancelled => r.dismisses;
    r.(pending := r.pending - {id}, dismisses := dismisses)
  }

  // ---------------------------------------------------------------- the registry object

  datatype RegisterError = DismissedThreeTimes | TooLarge

  datatype AnswerError = UnknownQuestion | InvalidResponse

  class QuestionRegistry {
    var pending: map<RequestId, Request>
    var dismisses: map<Source, nat>
    var nextId: RequestId

    ghost function View(): Registry
      reads this
    {
      Registry(pending, dismisses, nextId)
    }

    constructor ()
      ensures View() == Registry(map[], map[], 1) == Fresh.registry
    {
      pending, dismisses, nextId := map[], map[], 1;
    }

    method Register(source: Source, questions: seq<string>, encoded: nat) returns (result: Result<Request, RegisterError>)
      modifies this
      ensures View() == Registered(old(View()), source, questions, encoded)
      ensures result ==
        if Refused(old(View()), source) then Err(DismissedThreeTimes)
        else if encoded > MAX_SERIALIZED_BYTES then Err(TooLarge)
        else Ok(Request(old(nextId), source, questions))
    {
      if Refused(Registry(pending, dismisses, nextId), source) {
        return Err(DismissedThreeTimes);
      }
      var request := Request(nextId, source, questions);
      nextId := nextId + 1;
      if encoded > MAX_SERIALIZED_BYTES {
        return Err(TooLarge);
      }
      pending := pending[request.id := request];
      result := Ok(request);
    }

    /** An invalid answer leaves the question pending. */
    method Answer(id: RequestId, answers: map<string, string>, encoded: nat) returns (result: Result<Request, AnswerError>)
      modifies this
      ensures result ==
        if id !in old(pending) then Err(UnknownQuestion)
        else if !ValidAnswers(old(pending[id]), answers, encoded) then Err(InvalidResponse)
        else Ok(old(pending[id]))
      ensures View() == if result.Ok? then Claimed(old(View()), id, Answered(answers)) else old(View())
    {
      if id !in pending {
        return Err(UnknownQuestion);
      }
      var request := pending[id];
      if !ValidAnswers(request, answers, encoded) {
        return Err(InvalidResponse);
      }
      pending := pending - {id};
      dismisses := dismisses - {request.source};
      result := Ok(request);
    }

    method Dismiss(id: RequestId) returns (result: Result<Request, AnswerError>)
      modifies this
      ensures result == if id in old(pending) then Ok(old(pending[id])) else Err(UnknownQuestion)
      ensures View() == if result.Ok? then Claimed(old(View()), id, Dismissed) else old(View())
    {
      if id !in pending {
        return Err(UnknownQuestion);
      }
      var request := pending[id];
      pending := pending - {id};
      dismisses := dismisses[request.source := SaturatingIncrement(LookupOr(dismisses, request.source, 0))];
      result := Ok(request);
    }

    method TakeCancel(id: RequestId) returns (taken: bool)
      modifies this`pending
      ensures taken <==> id in old(pending)
      ensures View() == if taken then Claimed(old(View()), id, Cancelled) else old(View())
    {
      taken := id in pending;
      pending := pending - {id};
      assert !taken ==> pending == old(pending);
    }

    method TakeAll() returns (taken: map<RequestId, Request>)
      modifies this`pending
      ensures taken == old(pending)
      ensures View() == old(View()).(pending := map[])
    {
      taken := pending;
      pending := map[];
    }
  }

  // ---------------------------------------------------------------- interleaving

  /** A party that has claimed a request from outside its waiter and still has to publish and to wake. */
  datatype Resolver = Resolver(resolution: Resolution, published: bool)

  datatype Waiter =
    | Announcing                       // visible in snapshots, `QuestionRequested` not yet published
    | Waiting
    | SelfClaimed                      // cancelled and claimed by the waiter itself
    | AwaitingClaimant                 // cancelled, but somebody else holds the claim
    | Returned(resolution: Resolution)
    | Aborted

  /** `claims` and `claimOrder` record every claim ever made, `resolved` every `QuestionResolved` published. */
  datatype System = System(
    registry: Registry,
    resolvers: map<RequestId, Resolver>,
    sent: map<RequestId, Resolution>,
    waiters: map<RequestId, Waiter>,
    claims: map<RequestId, Resolution>,
    claimOrder: seq<RequestId>,
    resolved: seq<RequestId>,
    verdicts: seq<Verdict>)

  /** An answer or a dismissal a source received. */
  datatype Verdict = Verdict(source: Source, answered: bool)

  datatype Step =
    | Register(source: Source, questions: seq<string>, encoded: nat)
    | Announce(id: RequestId)
    | Answer(id: RequestId, answers: map<string, string>, encoded: nat)
    | Dismiss(id: RequestId)
    | Publish(id: RequestId)
    | Wake(id: RequestId)
    | Receive(id: RequestId)
    | ObserveCancellation(id: RequestId)
    | PublishOwn(id: RequestId)
    | AbortWaiter(id: RequestId)
    | Drain(id: RequestId)   // shutdown claims every pending request under one lock; claims commute

  predicate Enabled(s: System, step: Step) {
    match step
    case Register(_, _, _) => true
    case Announce(id) => id in s.waiters && s.waiters[id].Announcing?
    case Answer(_, _, _) => true
    case Dismiss(_) => true
    case Publish(id) => id in s.resolvers && !s.resolvers[id].published
    case Wake(id) => id in s.resolvers && s.resolvers[id].published
    case Receive(id) => id in s.sent && id in s.waiters && (s.waiters[id].Waiting? || s.waiters[id].AwaitingClaimant?)
    case ObserveCancellation(id) => id in s.waiters && s.waiters[id].Waiting?
    case PublishOwn(id) => id in s.waiters && s.waiters[id].SelfClaimed?
    case AbortWaiter(id) => id in s.waiters && !s.waiters[id].SelfClaimed? && !s.waiters[id].Returned?
    case Drain(id) => id in s.registry.pending
  }

  /** The registry part of a claim, with its entry in the history. */
  function Claim(s: System, id: RequestId, resolution: Resolution): System
    requires id in s.registry.pending
  {
    var source := s.registry.pending[id].source;
    s.(registry := Claimed(s.registry, id, resolution),
       claims := s.claims[id := resolution],
       claimOrder := s.claimOrder + [id],
       verdicts := if resolution.Cancelled? then s.verdicts else s.verdicts + [Verdict(source, resolution.Answered?)])
  }

  function ClaimFromOutside(s: System, id: RequestId, resolution: Resolution): System
    requires id in s.registry.pending
  {
    var claimed := Claim(s, id, resolution);
    claimed.(resolvers := claimed.resolvers[id := Resolver(resolution, false)])
  }

  function Apply(s: System, step: Step): System
    requires Enabled(s, step)
  {
    match step
    case Register(source, questions, encoded) =>
      var registry := Registered(s.registry, source, questions, encoded);
      s.(registry := registry,
         waiters := if registry.pending == s.registry.pending then s.waiters else s.waiters[s.registry.next := Announcing])
    case Announce(id) => s.(waiters := s.waiters[id := Waiting])
    case Answer(id, answers, encoded) =>
      if id in s.registry.pending && ValidAnswers(s.registry.pending[id], answers, encoded)
      then ClaimFromOutside(s, id, Answered(answers)) else s
    case Dismiss(id) => if id in s.registry.pending then ClaimFromOutside(s, id, Dismissed) else s
    case Publish(id) =>
      s.(resolvers := s.resolvers[id := s.resolvers[id].(published := true)], resolved := s.resolved + [id])
    case Wake(id) => s.(resolvers := s.resolvers - {id}, sent := s.sent[id := s.resolvers[id].resolution])
    case Receive(id) => s.(waiters := s.waiters[id := Returned(s.sent[id])])
    case ObserveCancellation(id) =>
      if id in s.registry.pending then
        var claimed := Claim(s, id, Cancelled);
        claimed.(waiters := claimed.waiters[id := SelfClaimed])
      else s.(waiters := s.waiters[id := AwaitingClaimant])
    case PublishOwn(id) => s.(waiters := s.waiters[id := Returned(Cancelled)], resolved := s.resolved + [id])
    case AbortWaiter(id) => s.(waiters := s.waiters[id := Aborted])
    case Drain(id) => ClaimFromOutside(s, id, Cancelled)
  }

  ghost predicate Runs(s: System, steps: seq<Step>, t: System)
    decreases steps
  {
    if steps == [] then s == t
    else Enabled(s, steps[0]) && Runs(Apply(s, steps[0]), steps[1..], t)
  }

  const Fresh: System := System(Registry(map[], map[], 1), map[], map[], map[], map[], [], [], [])

  // ---------------------------------------------------------------- invariant

  ghost predicate Distinct(ids: seq<RequestId>) {
    forall i, j | 0 <= i < j < |ids| :: ids[i] != ids[j]
  }

  /** Every request is pending or claimed, never both, and has one waiter. */
  ghost predicate LifecycleInv(s: System) {
    && s.registry.pending.Keys !! s.claims.Keys
    && s.waiters.Keys == s.registry.pending.Keys + s.claims.Keys
    && (forall id <- s.waiters :: id < s.registry.next)
    && Distinct(s.claimOrder) && (forall id :: id in s.claimOrder <==> id in s.claims)
  }

  /** Whoever carries an outcome carries the claimant's. */
  ghost predicate OutcomeInv(s: System, id: RequestId) {
    && (id in s.resolvers ==> id in s.claims && s.claims[id] == s.resolvers[id].resolution && id !in s.sent)
    && (id in s.sent ==> id in s.claims && s.claims[id] == s.sent[id])
    && (id in s.waiters && s.waiters[id].Returned? ==> id in s.claims && s.claims[id] == s.waiters[id].resolution)
    && (id in s.waiters && s.waiters[id].SelfClaimed? ==>
          id in s.claims && s.claims[id] == Cancelled && id !in s.resolvers && id !in s.sent)
    && (id in s.claims ==>
          || id in s.resolvers || id in s.sent
          || (id in s.waiters && (s.waiters[id].SelfClaimed? || s.waiters[id] == Returned(Cancelled))))
  }

  /** The claim of a request has been published. */
  ghost predicate Published(s: System, id: RequestId) {
    && id in s.claims
    && (id in s.resolvers ==> s.resolvers[id].published)
    && (id in s.waiters ==> !s.waiters[id].SelfClaimed?)
  }

  ghost predicate EventInv(s: System) {
    && Distinct(s.resolved)
    && (forall id :: id in s.resolved <==> Published(s, id))
  }

  ghost predicate Inv(s: System) {
    && LifecycleInv(s) && (forall id: RequestId :: OutcomeInv(s, id)) && EventInv(s)
  }

  lemma ClaimKeepsLifecycleInv(s: System, id: RequestId, resolution: Resolution)
    requires LifecycleInv(s) && id in s.registry.pending
    ensures LifecycleInv(Claim(s, id, resolution))
  {
  }

  /** The lifecycle depends on nothing but the registry, the claims and who has a waiter. */
  lemma SameLifecycle(s: System, t: System)
    requires LifecycleInv(s) && t.registry == s.registry && t.waiters.Keys == s.waiters.Keys
    requires t.claims == s.claims && t.claimOrder == s.claimOrder
    ensures LifecycleInv(t)
  {
  }

  lemma RegisterKeepsLifecycleInv(s: System, step: Step)
    requires LifecycleInv(s) && step.Register?
    ensures LifecycleInv(Apply(s, step))
  {
  }

  lemma ApplyKeepsLifecycleInv(s: System, step: Step)
    requires LifecycleInv(s) && Enabled(s, step)
    ensures LifecycleInv(Apply(s, step))
  {
    hide LifecycleInv, Claimed, ValidAnswers;
    var t := Apply(s, step);
    if step.Register? {
      RegisterKeepsLifecycleInv(s, step);
    } else if t.claimOrder == s.claimOrder {
      SameLifecycle(s, t);
    } else {
      var resolution :=
        match step case Answer(_, answers, _) => Answered(answers) case Dismiss(_) => Dismissed case _ => Cancelled;
      HasWaiter(s, step.id);
      ClaimKeepsLifecycleInv(s, step.id, resolution);
      SameLifecycle(Claim(s, step.id, resolution), t);
    }
  }

  lemma HasWaiter(s: System, id: RequestId)
    requires LifecycleInv(s) && id in s.registry.pending
    ensures id in s.waiters
  {
  }

  lemma ApplyKeepsOutcomeInv(s: System, step: Step, id: RequestId)
    requires LifecycleInv(s) && OutcomeInv(s, id) && Enabled(s, step)
    ensures OutcomeInv(Apply(s, step), id)
  {
  }

  lemma PublicationIsNew(s: System, step: Step)
    requires EventInv(s) && Enabled(s, step)
    ensures Distinct(Apply(s, step).resolved)
  {
    if step.Publish? || step.PublishOwn? {
      assert !Published(s, step.id) && step.id !in s.resolved;
    } else {
      assert Apply(s, step).resolved == s.resolved;
    }
  }

  predicate MayClaim(step: Step) {
    step.Answer? || step.Dismiss? || step.ObserveCancellation? || step.Drain?
  }

  lemma ClaimIsNotPublished(s: System, step: Step, id: RequestId)
    requires LifecycleInv(s) && OutcomeInv(s, id) && Enabled(s, step) && MayClaim(step)
    requires id in s.resolved <==> Published(s, id)
    ensures id in Apply(s, step).resolved <==> Published(Apply(s, step), id)
  {
    hide Claimed, ValidAnswers;
  }

  lemma PublicationIsRecorded(s: System, step: Step, id: RequestId)
    requires LifecycleInv(s) && OutcomeInv(s, id) && Enabled(s, step)
    requires id in s.resolved <==> Published(s, id)
    ensures id in Apply(s, step).resolved <==> Published(Apply(s, step), id)
  {
    if MayClaim(step) {
      ClaimIsNotPublished(s, step, id);
    }
  }

  lemma ApplyKeepsEventInv(s: System, step: Step)
    requires Inv(s) && Enabled(s, step)
    ensures EventInv(Apply(s, step))
  {
    PublicationIsNew(s, step);
    forall id: RequestId ensures id in Apply(s, step).resolved <==> Published(Apply(s, step), id) {
      assert OutcomeInv(s, id);
      PublicationIsRecorded(s, step, id);
    }
  }

  lemma {:induction false} RunKeepsInv(s: System, steps: seq<Step>, t: System)
    requires Inv(s) && Runs(s, steps, t)
    ensures Inv(t)
    decreases steps
  {
    if steps != [] {
      ApplyKeepsLifecycleInv(s, steps[0]);
      forall id: RequestId ensures OutcomeInv(Apply(s, steps[0]), id) {
        ApplyKeepsOutcomeInv(s, steps[0], id);
      }
      ApplyKeepsEventInv(s, steps[0]);
      RunKeepsInv(Apply(s, steps[0]), steps[1..], t);
    }
  }

  // ---------------------------------------------------------------- results over all runs

  /** No request is claimed twice, and none is resolved twice or before it has been claimed. */
  lemma ClaimedAndResolvedAtMostOnce(steps: seq<Step>, t: System)
    requires Runs(Fresh, steps, t)
    ensures Distinct(t.claimOrder) && Distinct(t.resolved)
    ensures forall id <- t.resolved :: id in t.claimOrder && id !in t.registry.pending
  {
    RunKeepsInv(Fresh, steps, t);
  }

  /**
   When no claimant is still at work, every request ever registered is either still pending or has
   exactly one `QuestionResolved`; after the shutdown drain, all of them have.
   */
  lemma EveryQuestionIsResolvedOnce(steps: seq<Step>, t: System)
    requires Runs(Fresh, steps, t)
    requires t.resolvers == map[] && forall id <- t.waiters :: !t.waiters[id].SelfClaimed?
    ensures forall id <- t.waiters :: id in t.registry.pending || id in t.resolved
    ensures Distinct(t.resolved)
    ensures t.registry.pending == map[] ==> forall id :: id in t.waiters <==> id in t.resolved
  {
    RunKeepsInv(Fresh, steps, t);
    forall id: RequestId ensures id in t.claims ==> id in t.resolved {
      assert OutcomeInv(t, id);
    }
  }

  /** A waiter returns what the claimant decided: a late cancellation never loses an accepted answer. */
  lemma WaiterReturnsTheClaim(steps: seq<Step>, t: System, id: RequestId)
    requires Runs(Fresh, steps, t)
    requires id in t.waiters && t.waiters[id].Returned?
    ensures id in t.claims && t.waiters[id].resolution == t.claims[id]
  {
    RunKeepsInv(Fresh, steps, t);
    assert OutcomeInv(t, id);
  }

  /** A waiter is never stranded: once its request is claimed and the claimant is done, it can return. */
  lemma NoWaiterIsStranded(steps: seq<Step>, t: System, id: RequestId)
    requires Runs(Fresh, steps, t)
    requires id in t.waiters && (t.waiters[id].Waiting? || t.waiters[id].AwaitingClaimant?)
    requires id !in t.registry.pending && id !in t.resolvers
    ensures id in t.claims && Enabled(t, Receive(id))
    ensures Apply(t, Receive(id)).waiters[id] == Returned(t.claims[id])
  {
    RunKeepsInv(Fresh, steps, t);
    assert OutcomeInv(t, id);
  }

  // ---------------------------------------------------------------- dismissal counters

  /** Dismissals a source has made since its last accepted answer. */
  function SinceAnswer(verdicts: seq<Verdict>, source: Source): nat {
    if verdicts == [] then 0
    else
      var last := verdicts[|verdicts| - 1];
      if last.source != source then SinceAnswer(verdicts[..|verdicts| - 1], source)
      else if last.answered then 0
      else SinceAnswer(verdicts[..|verdicts| - 1], source) + 1
  }

  ghost predicate CounterInv(s: System, source: Source) {
    var count := SinceAnswer(s.verdicts, source);
    LookupOr(s.registry.dismisses, source, 0) == if count < U8_MAX then count else U8_MAX
  }

  lemma OneMoreVerdict(verdicts: seq<Verdict>, verdict: Verdict, source: Source)
    ensures SinceAnswer(verdicts + [verdict], source) ==
              if verdict.source != source then SinceAnswer(verdicts, source)
              else if verdict.answered then 0 else SinceAnswer(verdicts, source) + 1
  {
    assert (verdicts + [verdict])[..|verdicts|] == verdicts;
  }

  lemma ClaimKeepsCounterInv(s: System, id: RequestId, resolution: Resolution, source: Source)
    requires CounterInv(s, source) && id in s.registry.pending
    ensures CounterInv(Claim(s, id, resolution), source)
  {
    OneMoreVerdict(s.verdicts, Verdict(s.registry.pending[id].source, resolution.Answered?), source);
  }

  lemma ApplyKeepsCounterInv(s: System, step: Step, source: Source)
    requires CounterInv(s, source) && Enabled(s, step)
    ensures CounterInv(Apply(s, step), source)
  {
    match step {
      case Answer(id, answers, encoded) =>
        if id in s.registry.pending {
          ClaimKeepsCounterInv(s, id, Answered(answers), source);
        }
      case Dismiss(id) =>
        if id in s.registry.pending {
          ClaimKeepsCounterInv(s, id, Dismissed, source);
        }
      case ObserveCancellation(id) =>
        if id in s.registry.pending {
          ClaimKeepsCounterInv(s, id, Cancelled, source);
        }
      case Drain(id) => ClaimKeepsCounterInv(s, id, Cancelled, source);
      case _ =>
    }
  }

  lemma {:induction false} RunKeepsCounterInv(s: System, steps: seq<Step>, t: System, source: Source)
    requires CounterInv(s, source) && Runs(s, steps, t)
    ensures CounterInv(t, source)
    decreases steps
  {
    if steps != [] {
      ApplyKeepsCounterInv(s, steps[0], source);
      RunKeepsCounterInv(Apply(s, steps[0]), steps[1..], t, source);
    }
  }

  /** Registration is refused exactly when the source has dismissed three times since its last answer. */
  lemma RefusedAfterThreeDismissals(steps: seq<Step>, t: System, source: Source)
    requires Runs(Fresh, steps, t)
    ensures Refused(t.registry, source) <==> SinceAnswer(t.verdicts, source) >= 3
    ensures
      var count := SinceAnswer(t.verdicts, source);
      LookupOr(t.registry.dismisses, source, 0) == if count < 255 then count else 255
  {
    RunKeepsCounterInv(Fresh, steps, t, source);
  }

  // ---------------------------------------------------------------- what is accepted

  /** The characters with the Unicode property `White_Space`. */
  const WHITE_SPACE: string :=
    "\t\n\U{000B}\U{000C}\r \U{0085}\U{00A0}\U{1680}"
    + "\U{2000}\U{2001}\U{2002}\U{2003}\U{2004}\U{2005}\U{2006}\U{2007}\U{2008}\U{2009}\U{200A}"
    + "\U{2028}\U{2029}\U{202F}\U{205F}\U{3000}"

  /** Each question has an answer of at most 2000 characters, not all of them white space, and nothing else has one. */
  ghost predicate Acceptable(request: Request, answers: map<string, string>, encoded: nat) {
    && (forall question :: question in answers <==> question in request.questions)
    && (forall question <- answers ::
          && |answers[question]| <= 2000
          && exists i :: 0 <= i < |answers[question]| && answers[question][i] !in WHITE_SPACE)
    && encoded <= 65536
  }

  lemma WhiteSpaceIsLiteral(c: char)
    ensures IsWhitespace(c) <==> c in WHITE_SPACE
  {
  }

  lemma BlankIsLiteral(text: string)
    ensures Blank(text) <==> !(exists i :: 0 <= i < |text| && text[i] !in WHITE_SPACE)
  {
    forall i | 0 <= i < |text| ensures IsWhitespace(text[i]) <==> text[i] in WHITE_SPACE {
      WhiteSpaceIsLiteral(text[i]);
    }
    hide WHITE_SPACE, IsWhitespace;
  }

  lemma ValidIsAcceptable(request: Request, answers: map<string, string>, encoded: nat)
    ensures ValidAnswers(request, answers, encoded) <==> Acceptable(request, answers, encoded)
  {
    hide Blank, WHITE_SPACE;
    forall question <- answers
      ensures Blank(answers[question]) <==>
              !(exists i :: 0 <= i < |answers[question]| && answers[question][i] !in WHITE_SPACE)
    {
      BlankIsLiteral(answers[question]);
    }
    assert answers.Keys == (set question | question in request.questions) <==>
           forall question :: question in answers <==> question in request.questions;
  }

  /** An answer claims its question exactly if that is pending and the answer acceptable; else nothing happens. */
  lemma AnswerIsAcceptedIff(s: System, id: RequestId, answers: map<string, string>, encoded: nat)
    ensures
      var t := Apply(s, Step.Answer(id, answers, encoded));
      && Enabled(s, Step.Answer(id, answers, encoded))
      && if id in s.registry.pending && Acceptable(s.registry.pending[id], answers, encoded)
      then
        && t.claims == s.claims[id := Answered(answers)] && t.registry.pending == s.registry.pending - {id}
        && t.registry.next == s.registry.next
        && id in t.resolvers && t.resolvers[id] == Resolver(Answered(answers), false)
      else t == s
  {
    hide ValidAnswers, Acceptable;
    if id in s.registry.pending {
      ValidIsAcceptable(s.registry.pending[id], answers, encoded);
    }
  }

  /** A dismissal claims its question and counts against its source; a question that is not pending is not dismissed. */
  lemma DismissalIsCounted(s: System, id: RequestId)
    ensures
      var t := Apply(s, Step.Dismiss(id));
      && Enabled(s, Step.Dismiss(id))
      && if id in s.registry.pending
         then
           var source := s.registry.pending[id].source;
           && t.claims == s.claims[id := Dismissed] && t.registry.pending == s.registry.pending - {id}
           && SinceAnswer(t.verdicts, source) == SinceAnswer(s.verdicts, source) + 1
           && id in t.resolvers && t.resolvers[id] == Resolver(Dismissed, false)
         else t == s
  {
    if id in s.registry.pending {
      OneMoreVerdict(s.verdicts, Verdict(s.registry.pending[id].source, false), s.registry.pending[id].source);
    }
  }

  /**
   A waiter that is cancelled while its question is pending claims it, publishes that and returns; if
   somebody else has claimed it, the waiter waits for that outcome instead. One that is aborted never returns.
   */
  lemma CancelledWaiterReturns(s: System, id: RequestId)
    requires Enabled(s, ObserveCancellation(id))
    ensures
      var t := Apply(s, ObserveCancellation(id));
      if id in s.registry.pending
      then
        && t.claims == s.claims[id := Resolution.Cancelled] && id !in t.registry.pending && Enabled(t, PublishOwn(id))
        && var u := Apply(t, PublishOwn(id));
           u.waiters == s.waiters[id := Returned(Resolution.Cancelled)] && u.resolved == s.resolved + [id]
      else t == s.(waiters := s.waiters[id := AwaitingClaimant])
    ensures
      var t := Apply(s, AbortWaiter(id));
      t.waiters == s.waiters[id := Aborted] && t.registry == s.registry && t.claims == s.claims
  {
  }

  /**
   In every run a registration is refused, without an id, after three dismissals since the last accepted
   answer; refused, with one, if it is larger than 65536 bytes; and else pending under that id.
   */
  lemma RegistrationIsExact(steps: seq<Step>, s: System, source: Source, questions: seq<string>, encoded: nat)
    requires Runs(Fresh, steps, s)
    ensures
      var t := Apply(s, Step.Register(source, questions, encoded));
      var (refused, id) := (SinceAnswer(s.verdicts, source) >= 3, s.registry.next);
      && t.registry.next == (if refused then id else id + 1)
      && t.registry.pending ==
           (if refused || encoded > 65536 then s.registry.pending
            else s.registry.pending[id := Request(id, source, questions)])
      && (!refused && encoded <= 65536 ==> id !in s.registry.pending && t.waiters == s.waiters[id := Announcing])
  {
    RefusedAfterThreeDismissals(steps, s, source);
    RunKeepsInv(Fresh, steps, s);
  }
}
