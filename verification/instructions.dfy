/**
 Instruction discovery: the sources a session caches and activates, and the budget that all sessions of one
 root conversation share.
 */
module Instructions {
  import opened Sums
  import opened Wrappers

  type Path = nat

  const MAX_SOURCE_SLOTS: nat := 256
  const MAX_CACHED_BYTES: nat := 8 * 1024 * 1024

  datatype Reason = NotRegularFile | InvalidUtf8 | SourceTooLarge | ConversationLimit | Io(message: string) | Truncated

  /** A source that could not be used has a warning instead of content. */
  datatype Source = Source(content: Option<string>, warning: Option<Reason>)

  datatype Entry = Missing | Cached(source: Source)

  /** `detail` stands for what a warning tells beyond its key. */
  datatype Warning = Warning(path: Path, reason: Reason, detail: nat)

  datatype Key = Key(path: Path, reason: Reason)

  datatype Budget = Budget(slots: nat, bytes: nat)

  /** The summaries and warnings of a rendering; a summary is opaque. */
  datatype Report = Report(summaries: seq<nat>, warnings: seq<Warning>)

  /** `last` is the report of the last finished submission. */
  datatype Session = Session(
    nested: map<Path, Entry>, active: set<Path>, submissionActive: bool, last: Report, reported: set<Key>, slots: nat, bytes: nat)

  /** What a discovery has found so far; `error` names the first blocked source. */
  datatype Discovery = Discovery(activated: bool, error: Option<Key>, warnings: seq<Warning>)

  // ---------------------------------------------------------------- discovery on values

  function Bytes(source: Source): nat {
    if source.content.Some? then |source.content.value| else 0
  }

  predicate Fits(budget: Budget, source: Source) {
    budget.slots + 1 <= MAX_SOURCE_SLOTS && budget.bytes + Bytes(source) <= MAX_CACHED_BYTES
  }

  const OVER_LIMIT: Source := Source(None, Some(ConversationLimit))

  datatype Shared = Shared(session: Session, budget: Budget)

  /** The first look at a path decides its entry for the rest of the session. */
  function Loaded(s: Shared, path: Path, files: map<Path, Source>): (t: Shared)
    ensures path in t.session.nested
  {
    var session := s.session;
    if path in session.nested then s
    else if path !in files then s.(session := session.(nested := session.nested[path := Missing]))
    else
      var source := files[path];
      if Fits(s.budget, source) then
        Shared(session.(nested := session.nested[path := Cached(source)],
                        slots := session.slots + 1, bytes := session.bytes + Bytes(source)),
               Budget(s.budget.slots + 1, s.budget.bytes + Bytes(source)))
      else s.(session := session.(nested := session.nested[path := Cached(OVER_LIMIT)]))
  }

  function Visited(session: Session, found: Discovery, path: Path): (Session, Discovery)
    requires path in session.nested
  {
    match session.nested[path]
    case Missing => (session, found)
    case Cached(source) =>
      var newlyActive := path !in session.active;
      var activated := if newlyActive then source.content.Some? || source.warning.Some? || found.activated else found.activated;
      var error := if source.warning.Some? && found.error.None? then Some(Key(path, source.warning.value)) else found.error;
      var warnings :=
        if source.warning.Some? && newlyActive && Warning(path, source.warning.value, 0) !in found.warnings
        then found.warnings + [Warning(path, source.warning.value, 0)] else found.warnings;
      (session.(active := session.active + {path}), Discovery(activated, error, warnings))
  }

  datatype Walk = Walk(shared: Shared, found: Discovery)

  function Walked(w: Walk, path: Path, files: map<Path, Source>): Walk {
    var loaded := Loaded(w.shared, path, files);
    var (session, found) := Visited(loaded.session, w.found, path);
    Walk(loaded.(session := session), found)
  }

  function WalkedAll(w: Walk, candidates: seq<Path>, files: map<Path, Source>): Walk {
    if candidates == [] then w
    else Walked(WalkedAll(w, candidates[..|candidates| - 1], files), candidates[|candidates| - 1], files)
  }

  function Added(warnings: seq<Warning>, more: seq<Warning>): seq<Warning> {
    if more == [] then warnings
    else
      var rest := Added(warnings, more[..|more| - 1]);
      if more[|more| - 1] in rest then rest else rest + [more[|more| - 1]]
  }

  function KeyOf(warning: Warning): Key {
    Key(warning.path, warning.reason)
  }

  /** The warnings not reported yet, and the keys reported afterwards. */
  function Unreported(warnings: seq<Warning>, reported: set<Key>): (seq<Warning>, set<Key>) {
    if warnings == [] then ([], reported)
    else
      var (front, keys) := Unreported(warnings[..|warnings| - 1], reported);
      var last := warnings[|warnings| - 1];
      if KeyOf(last) in keys then (front, keys) else (front + [last], keys + {KeyOf(last)})
  }

  /** `rendered` are the warnings that rendering the active sources gives. */
  function Discovered(s: Shared, candidates: seq<Path>, files: map<Path, Source>, rendered: seq<Warning>): Walk {
    var w := WalkedAll(Walk(s, Discovery(false, None, [])), candidates, files);
    var warnings := if w.found.activated && w.found.error.None? then Added(w.found.warnings, rendered) else w.found.warnings;
    var (unreported, reported) := Unreported(warnings, w.shared.session.reported);
    Walk(w.shared.(session := w.shared.session.(reported := reported)), w.found.(warnings := unreported))
  }

  function Begun(session: Session): Session {
    session.(active := {}, reported := {}, submissionActive := true)
  }

  function Finished(session: Session, rendered: Report): Session {
    session.(last := rendered, active := {}, submissionActive := false)
  }

  datatype ReportState = ActiveSubmission | LastSubmission | Base

  /** What a client is shown; `rendered` is what the session renders to now. */
  function Reported(session: Session, rendered: Report): (ReportState, Report) {
    if session.submissionActive then (ActiveSubmission, rendered)
    else if session.last.summaries != [] then (LastSubmission, session.last)
    else (Base, rendered)
  }

  function SaturatingSub(a: nat, b: nat): nat {
    if b <= a then a - b else 0
  }

  function Released(budget: Budget, session: Session): Budget {
    Budget(SaturatingSub(budget.slots, session.slots), SaturatingSub(budget.bytes, session.bytes))
  }

  const EmptySession: Session := Session(map[], {}, false, Report([], []), {}, 0, 0)

  // ---------------------------------------------------------------- the session object

  class ConversationBudget {
    var slots: nat
    var bytes: nat

    ghost function View(): Budget
      reads this
    {
      Budget(slots, bytes)
    }

    constructor ()
      ensures View() == Budget(0, 0)
    {
      slots, bytes := 0, 0;
    }
  }

  class InstructionSession {
    const budget: ConversationBudget
    var nested: map<Path, Entry>
    var active: set<Path>
    var submissionActive: bool
    var last: Report
    var reported: set<Key>
    var slots: nat
    var bytes: nat

    ghost function View(): Session
      reads this
    {
      Session(nested, active, submissionActive, last, reported, slots, bytes)
    }

    ghost function SharedView(): Shared
      reads this, budget
    {
      Shared(View(), budget.View())
    }

    constructor (budget: ConversationBudget)
      ensures View() == EmptySession == Session(map[], {}, false, Report([], []), {}, 0, 0) && this.budget == budget
    {
      this.budget := budget;
      nested, active, submissionActive, last := map[], {}, false, Report([], []);
      reported, slots, bytes := {}, 0, 0;
    }

    method BeginSubmission()
      modifies this
      ensures View() == Begun(old(View()))
    {
      active, reported, submissionActive := {}, {}, true;
    }

    method FinishSubmission(rendered: Report)
      modifies this
      ensures View() == Finished(old(View()), rendered)
    {
      last := rendered;
      active, submissionActive := {}, false;
    }

    method ReportSources(rendered: Report) returns (state: ReportState, report: Report)
      ensures (state, report) == Reported(View(), rendered)
    {
      if submissionActive {
        return ActiveSubmission, rendered;
      }
      if last.summaries != [] {
        return LastSubmission, last;
      }
      return Base, rendered;
    }

    method ReserveNested(source: Source) returns (ok: bool)
      modifies this`slots, this`bytes, budget
      ensures ok == Fits(old(budget.View()), source)
      ensures ok ==> budget.View() == Budget(old(budget.slots) + 1, old(budget.bytes) + Bytes(source))
      ensures ok ==> slots == old(slots) + 1 && bytes == old(bytes) + Bytes(source)
      ensures !ok ==> SharedView() == old(SharedView())
    {
      if budget.slots + 1 > MAX_SOURCE_SLOTS || budget.bytes + Bytes(source) > MAX_CACHED_BYTES {
        return false;
      }
      budget.slots := budget.slots + 1;
      budget.bytes := budget.bytes + Bytes(source);
      slots := slots + 1;
      bytes := bytes + Bytes(source);
      ok := true;
    }

    method Load(path: Path, files: map<Path, Source>)
      modifies this, budget
      ensures SharedView() == Loaded(old(SharedView()), path, files)
    {
      if path !in nested {
        var entry := Missing;
        if path in files {
          var source := files[path];
          var ok := ReserveNested(source);
          entry := Cached(if ok then source else OVER_LIMIT);
        }
        nested := nested[path := entry];
      }
    }

    method Discover(candidates: seq<Path>, files: map<Path, Source>, rendered: seq<Warning>) returns (found: Discovery)
      modifies this, budget
      ensures Walk(SharedView(), found) == Discovered(old(SharedView()), candidates, files, rendered)
    {
      hide Loaded;
      ghost var begin := Walk(SharedView(), Discovery(false, None, []));
      var activated, warnings, error := false, [], None;
      var i := 0;
      while i < |candidates|
        invariant i <= |candidates|
        invariant Walk(SharedView(), Discovery(activated, error, warnings)) == WalkedAll(begin, candidates[..i], files)
      {
        var path := candidates[i];
        assert candidates[..i + 1][..i] == candidates[..i];
        Load(path, files);
        if nested[path].Cached? {
          var source := nested[path].source;
          var newlyActive := path !in active;
          active := active + {path};
          if newlyActive {
            activated := source.content.Some? || source.warning.Some? || activated;
          }
          if source.warning.Some? {
            var warning := Warning(path, source.warning.value, 0);
            if error.None? {
              error := Some(Key(path, source.warning.value));
            }
            if newlyActive && warning !in warnings {
              warnings := warnings + [warning];
            }
          }
        }
        i := i + 1;
      }
      assert candidates[..i] == candidates;
      if activated && error.None? {
        warnings := AddWarnings(warnings, rendered);
      }
      var kept, keys := RetainUnreported(warnings, reported);
      reported := keys;
      found := Discovery(activated, error, kept);
    }

    /** Gives the reservations back when the session is dropped. */
    method Drop()
      modifies budget
      ensures budget.View() == Released(old(budget.View()), View())
    {
      budget.slots := SaturatingSub(budget.slots, slots);
      budget.bytes := SaturatingSub(budget.bytes, bytes);
    }
  }

  method AddWarnings(warnings: seq<Warning>, more: seq<Warning>) returns (all: seq<Warning>)
    ensures all == Added(warnings, more)
  {
    all := warnings;
    for i := 0 to |more|
      invariant all == Added(warnings, more[..i])
    {
      assert more[..i + 1][..i] == more[..i];
      if more[i] !in all {
        all := all + [more[i]];
      }
    }
    assert more[..|more|] == more;
  }

  method RetainUnreported(warnings: seq<Warning>, reported: set<Key>) returns (kept: seq<Warning>, keys: set<Key>)
    ensures (kept, keys) == Unreported(warnings, reported)
  {
    kept, keys := [], reported;
    for i := 0 to |warnings|
      invariant (kept, keys) == Unreported(warnings[..i], reported)
    {
      assert warnings[..i + 1][..i] == warnings[..i];
      if KeyOf(warnings[i]) !in keys {
        kept, keys := kept + [warnings[i]], keys + {KeyOf(warnings[i])};
      }
    }
    assert warnings[..|warnings|] == warnings;
  }

  // ---------------------------------------------------------------- runs

  /** All sessions of one root; `base` is what the root's own sources reserved. */
  datatype System = System(base: Budget, budget: Budget, sessions: seq<Option<Session>>)

  datatype Step =
    | Open
    | Begin(session: nat)
    | Finish(session: nat, report: Report)
    | Discover(session: nat, candidates: seq<Path>, files: map<Path, Source>, rendered: seq<Warning>)
    | Close(session: nat)

  /** What reading a source can give. */
  ghost predicate Readable(files: map<Path, Source>) {
    forall path <- files ::
      var source := files[path];
      source.content.None? == source.warning.Some? && source.warning != Some(ConversationLimit)
  }

  ghost predicate IsOpen(s: System, i: nat) {
    i < |s.sessions| && s.sessions[i].Some?
  }

  ghost predicate Enabled(s: System, step: Step) {
    match step
    case Open => true
    case Begin(i) => IsOpen(s, i)
    case Finish(i, _) => IsOpen(s, i)
    case Discover(i, _, files, _) => IsOpen(s, i) && Readable(files)
    case Close(i) => IsOpen(s, i)
  }

  ghost function SharedOf(s: System, i: nat): Shared
    requires IsOpen(s, i)
  {
    Shared(s.sessions[i].value, s.budget)
  }

  ghost function Apply(s: System, step: Step): System
    requires Enabled(s, step)
  {
    match step
    case Open => s.(sessions := s.sessions + [Some(EmptySession)])
    case Begin(i) => s.(sessions := s.sessions[i := Some(Begun(s.sessions[i].value))])
    case Finish(i, report) => s.(sessions := s.sessions[i := Some(Finished(s.sessions[i].value, report))])
    case Discover(i, candidates, files, rendered) =>
      var Shared(session, budget) := Discovered(SharedOf(s, i), candidates, files, rendered).shared;
      s.(sessions := s.sessions[i := Some(session)], budget := budget)
    case Close(i) => s.(sessions := s.sessions[i := None], budget := Released(s.budget, s.sessions[i].value))
  }

  ghost predicate Runs(s: System, steps: seq<Step>, t: System)
    decreases steps
  {
    if steps == [] then s == t
    else Enabled(s, steps[0]) && Runs(Apply(s, steps[0]), steps[1..], t)
  }

  predicate WithinLimits(budget: Budget) {
    budget.slots <= MAX_SOURCE_SLOTS && budget.bytes <= MAX_CACHED_BYTES
  }

  /** What loading a root reserves for its own sources, if all of them fit. */
  function BaseBudget(sources: seq<Source>): Option<Budget> {
    if sources == [] then Some(Budget(0, 0))
    else
      var last := sources[|sources| - 1];
      var before := BaseBudget(sources[..|sources| - 1]);
      if before.None? || !Fits(before.value, last) then None
      else Some(Budget(before.value.slots + 1, before.value.bytes + Bytes(last)))
  }

  lemma {:induction false} LoadedBaseFits(sources: seq<Source>)
    ensures BaseBudget(sources).Some? <==> |sources| <= 256 && ContentLength(sources) <= 8388608
    ensures BaseBudget(sources).Some? ==> BaseBudget(sources).value == Budget(|sources|, ContentLength(sources))
  {
    if sources != [] {
      LoadedBaseFits(sources[..|sources| - 1]);
    }
  }

  /** The length of all contents together. */
  function ContentLength(sources: seq<Source>): nat {
    if sources == [] then 0
    else
      var last := sources[|sources| - 1];
      ContentLength(sources[..|sources| - 1]) + if last.content.Some? then |last.content.value| else 0
  }

  /** A root whose base sources fit, before any session is opened. */
  function Initial(base: Budget): System {
    System(base, base, [])
  }

  // ---------------------------------------------------------------- invariant

  /** An entry takes a slot unless the file is missing or the budget was exhausted. */
  function SlotWeights(nested: map<Path, Entry>): map<Path, nat> {
    map path | path in nested :: if nested[path].Cached? && nested[path].source.warning != Some(ConversationLimit) then 1 else 0
  }

  function ByteWeights(nested: map<Path, Entry>): map<Path, nat> {
    map path | path in nested :: if nested[path].Cached? then Bytes(nested[path].source) else 0
  }

  /** A session has reserved exactly what its cache holds. */
  ghost predicate SessionInv(session: Session) {
    session.slots == Sum(SlotWeights(session.nested)) && session.bytes == Sum(ByteWeights(session.nested))
  }

  function Reservation(session: Option<Session>): Budget {
    if session.None? then Budget(0, 0) else Budget(session.value.slots, session.value.bytes)
  }

  function Plus(a: Budget, b: Budget): Budget {
    Budget(a.slots + b.slots, a.bytes + b.bytes)
  }

  function Total(sessions: seq<Option<Session>>): Budget {
    if sessions == [] then Budget(0, 0)
    else Plus(Total(sessions[..|sessions| - 1]), Reservation(sessions[|sessions| - 1]))
  }

  ghost predicate Inv(s: System) {
    && s.budget == Plus(s.base, Total(s.sessions))
    && WithinLimits(s.budget)
    && forall i: nat | IsOpen(s, i) :: SessionInv(s.sessions[i].value)
  }

  lemma {:induction false} TotalWith(sessions: seq<Option<Session>>, i: nat, session: Option<Session>)
    requires i < |sessions|
    ensures Plus(Total(sessions[i := session]), Reservation(sessions[i])) == Plus(Total(sessions), Reservation(session))
    decreases sessions
  {
    hide Reservation;
    var last := |sessions| - 1;
    var changed := sessions[i := session];
    assert Total(changed) == Plus(Total(changed[..last]), Reservation(changed[last]));
    assert Total(sessions) == Plus(Total(sessions[..last]), Reservation(sessions[last]));
    if i == last {
      assert changed[..last] == sessions[..last];
    } else {
      assert changed[..last] == sessions[..last][i := session];
      TotalWith(sessions[..last], i, session);
    }
  }

  /** Loading reserves for the session what it takes from the budget, and keeps what is cached. */
  ghost predicate Reserves(s: Shared, t: Shared) {
    && s.budget.slots + t.session.slots == t.budget.slots + s.session.slots
    && s.budget.bytes + t.session.bytes == t.budget.bytes + s.session.bytes
    && (WithinLimits(s.budget) ==> WithinLimits(t.budget))
    && (SessionInv(s.session) ==> SessionInv(t.session))
    && (forall path <- s.session.nested :: path in t.session.nested && t.session.nested[path] == s.session.nested[path])
  }

  lemma NewEntryWeights(nested: map<Path, Entry>, path: Path, entry: Entry)
    requires path !in nested
    ensures
      Sum(SlotWeights(nested[path := entry])) ==
      Sum(SlotWeights(nested)) + if entry.Cached? && entry.source.warning != Some(ConversationLimit) then 1 else 0
    ensures
      Sum(ByteWeights(nested[path := entry])) ==
      Sum(ByteWeights(nested)) + if entry.Cached? then Bytes(entry.source) else 0
  {
    var more := nested[path := entry];
    SumWithout(SlotWeights(more), path);
    SumWithout(ByteWeights(more), path);
    assert SlotWeights(more) - {path} == SlotWeights(nested);
    assert ByteWeights(more) - {path} == ByteWeights(nested);
  }

  lemma LoadedReserves(s: Shared, path: Path, files: map<Path, Source>)
    requires Readable(files)
    ensures Reserves(s, Loaded(s, path, files))
  {
    hide SlotWeights, ByteWeights;
    if path !in s.session.nested {
      NewEntryWeights(s.session.nested, path, Loaded(s, path, files).session.nested[path]);
    }
  }

  lemma {:induction false} WalkReserves(w: Walk, candidates: seq<Path>, files: map<Path, Source>)
    requires Readable(files)
    ensures Reserves(w.shared, WalkedAll(w, candidates, files).shared)
    ensures w.shared.session.active <= WalkedAll(w, candidates, files).shared.session.active
  {
    hide Loaded, SlotWeights, ByteWeights;
    if candidates != [] {
      var before := WalkedAll(w, candidates[..|candidates| - 1], files);
      WalkReserves(w, candidates[..|candidates| - 1], files);
      LoadedReserves(before.shared, candidates[|candidates| - 1], files);
      LoadedKeepsActive(before.shared, candidates[|candidates| - 1], files);
    }
  }

  lemma LoadedKeepsActive(s: Shared, path: Path, files: map<Path, Source>)
    ensures Loaded(s, path, files).session.active == s.session.active
  {
  }

  lemma DiscoverReserves(s: Shared, step: Step)
    requires step.Discover? && Readable(step.files)
    ensures Reserves(s, Discovered(s, step.candidates, step.files, step.rendered).shared)
    ensures s.session.active <= Discovered(s, step.candidates, step.files, step.rendered).shared.session.active
  {
    hide Added, Unreported, WalkedAll, SlotWeights, ByteWeights;
    WalkReserves(Walk(s, Discovery(false, None, [])), step.candidates, step.files);
  }

  lemma {:induction false} TotalIncludes(sessions: seq<Option<Session>>, i: nat)
    requires i < |sessions|
    ensures Reservation(sessions[i]).slots <= Total(sessions).slots
    ensures Reservation(sessions[i]).bytes <= Total(sessions).bytes
    decreases sessions
  {
    var last := |sessions| - 1;
    if i < last {
      TotalIncludes(sessions[..last], i);
    }
  }

  lemma UpdateKeepsInv(s: System, i: nat, session: Session, budget: Budget)
    requires Inv(s) && IsOpen(s, i) && Reserves(SharedOf(s, i), Shared(session, budget))
    ensures Inv(s.(sessions := s.sessions[i := Some(session)], budget := budget))
  {
    hide SessionInv, Total, Sum;
    TotalWith(s.sessions, i, Some(session));
    var t := s.(sessions := s.sessions[i := Some(session)], budget := budget);
    assert SessionInv(s.sessions[i].value);
    forall j: nat | IsOpen(t, j) ensures SessionInv(t.sessions[j].value) {
      if j != i {
        assert IsOpen(s, j);
      }
    }
  }

  lemma TotalSnoc(sessions: seq<Option<Session>>, session: Option<Session>)
    ensures Total(sessions + [session]) == Plus(Total(sessions), Reservation(session))
  {
    assert (sessions + [session])[..|sessions|] == sessions;
  }

  lemma OpenKeepsInv(s: System)
    requires Inv(s)
    ensures Inv(s.(sessions := s.sessions + [Some(EmptySession)]))
  {
    hide SessionInv, Sum, Total;
    var t := s.(sessions := s.sessions + [Some(EmptySession)]);
    TotalSnoc(s.sessions, Some(EmptySession));
    EmptyIsUnreserved();
    forall i: nat | IsOpen(t, i) ensures SessionInv(t.sessions[i].value) {
      if i < |s.sessions| {
        assert IsOpen(s, i);
      }
    }
  }

  lemma CloseKeepsInv(s: System, i: nat)
    requires Inv(s) && IsOpen(s, i)
    ensures Inv(s.(sessions := s.sessions[i := None], budget := Released(s.budget, s.sessions[i].value)))
  {
    hide SessionInv, Total, Sum;
    var t := s.(sessions := s.sessions[i := None], budget := Released(s.budget, s.sessions[i].value));
    TotalWith(s.sessions, i, None);
    TotalIncludes(s.sessions, i);
    forall j: nat | IsOpen(t, j) ensures SessionInv(t.sessions[j].value) {
      assert IsOpen(s, j);
    }
  }

  lemma ApplyKeepsInv(s: System, step: Step)
    requires Inv(s) && Enabled(s, step)
    ensures Inv(Apply(s, step))
  {
    hide Inv, Discovered, SlotWeights, ByteWeights, Released;
    match step
    case Open => OpenKeepsInv(s);
    case Begin(i) => UpdateKeepsInv(s, i, Begun(s.sessions[i].value), s.budget);
    case Finish(i, report) => UpdateKeepsInv(s, i, Finished(s.sessions[i].value, report), s.budget);
    case Discover(i, candidates, files, rendered) =>
      DiscoverReserves(SharedOf(s, i), step);
      var shared := Discovered(SharedOf(s, i), candidates, files, rendered).shared;
      UpdateKeepsInv(s, i, shared.session, shared.budget);
    case Close(i) => CloseKeepsInv(s, i);
  }

  lemma EmptyIsUnreserved()
    ensures SessionInv(EmptySession)
  {
    assert SlotWeights(map[]) == map[] && ByteWeights(map[]) == map[];
  }

  lemma {:induction false} RunKeepsInv(s: System, steps: seq<Step>, t: System)
    requires Inv(s) && Runs(s, steps, t)
    ensures Inv(t) && t.base == s.base
    decreases steps
  {
    if steps != [] {
      ApplyKeepsInv(s, steps[0]);
      RunKeepsInv(Apply(s, steps[0]), steps[1..], t);
    }
  }

  // ---------------------------------------------------------------- results about the budget

  lemma InitialInv(base: Budget)
    requires WithinLimits(base)
    ensures Inv(Initial(base))
  {
  }

  /**
   The shared budget is what the base sources and the open sessions hold, entry by entry; the limits bound
   all of it together, and once the last session is dropped only the base sources are left.
   */
  lemma BudgetIsConserved(base: Budget, steps: seq<Step>, t: System)
    requires WithinLimits(base) && Runs(Initial(base), steps, t)
    ensures t.budget == Plus(base, Total(t.sessions)) && t.budget.slots <= 256 && t.budget.bytes <= 8388608
    ensures forall i: nat | IsOpen(t, i) ::
              var session := t.sessions[i].value;
              && session.slots == Sum(SlotWeights(session.nested))
              && session.bytes == Sum(ByteWeights(session.nested))
    ensures AllDropped(t.sessions) ==> t.budget == base
  {
    hide Total, Sum, SlotWeights, ByteWeights;
    InitialInv(base);
    RunKeepsInv(Initial(base), steps, t);
    forall i: nat | IsOpen(t, i) ensures SessionInv(t.sessions[i].value) {
    }
    if AllDropped(t.sessions) {
      NothingIsReserved(t.sessions, |t.sessions|);
      assert t.sessions[..|t.sessions|] == t.sessions;
    }
  }

  ghost predicate AllDropped(sessions: seq<Option<Session>>) {
    forall i | 0 <= i < |sessions| :: sessions[i].None?
  }

  lemma {:induction false} NothingIsReserved(sessions: seq<Option<Session>>, n: nat)
    requires AllDropped(sessions) && n <= |sessions|
    ensures Total(sessions[..n]) == Budget(0, 0)
  {
    if n > 0 {
      NothingIsReserved(sessions, n - 1);
      assert sessions[..n][..n - 1] == sessions[..n - 1];
      assert sessions[n - 1].None?;
    }
  }

  /** Giving back what was never taken leaves nothing. */
  lemma ReleasingNothing(session: Session)
    ensures Released(Budget(0, 0), session) == Budget(0, 0)
  {
  }

  /** Dropping a session gives back exactly what it reserved: neither subtraction stops at zero. */
  lemma DropIsExact(base: Budget, steps: seq<Step>, t: System, i: nat)
    requires WithinLimits(base) && Runs(Initial(base), steps, t) && IsOpen(t, i)
    ensures Plus(Released(t.budget, t.sessions[i].value), Reservation(t.sessions[i])) == t.budget
  {
    hide Total, SessionInv;
    InitialInv(base);
    RunKeepsInv(Initial(base), steps, t);
    TotalIncludes(t.sessions, i);
  }

  // ---------------------------------------------------------------- results about discovery

  /** The step neither begins nor finishes a submission of the session, and does not drop it. */
  predicate StaysInSubmission(step: Step, i: nat) {
    step != Begin(i) && step != Close(i) && !(step.Finish? && step.session == i)
  }

  /** Each candidate has been looked at: it is missing, or cached and active. */
  ghost predicate Settled(session: Session, candidates: seq<Path>) {
    forall path <- candidates ::
      path in session.nested && (session.nested[path].Cached? ==> path in session.active)
  }

  ghost predicate Extends(s: Session, t: Session) {
    && s.active <= t.active
    && forall path <- s.nested :: path in t.nested && t.nested[path] == s.nested[path]
  }

  lemma DiscoverExtends(s: System, step: Step)
    requires Enabled(s, step) && step.Discover?
    ensures Extends(s.sessions[step.session].value, Apply(s, step).sessions[step.session].value)
  {
    hide Discovered;
    DiscoverReserves(SharedOf(s, step.session), step);
  }

  /** While a submission lasts, cached entries do not change and active ones stay active. */
  lemma {:induction false} SubmissionExtends(s: System, steps: seq<Step>, t: System, i: nat)
    requires IsOpen(s, i) && Runs(s, steps, t)
    requires forall k | 0 <= k < |steps| :: StaysInSubmission(steps[k], i)
    ensures IsOpen(t, i) && Extends(s.sessions[i].value, t.sessions[i].value)
    decreases steps
  {
    hide Discovered;
    if steps != [] {
      assert StaysInSubmission(steps[0], i);
      var next := Apply(s, steps[0]);
      if steps[0].Discover? && steps[0].session == i {
        DiscoverExtends(s, steps[0]);
      }
      assert IsOpen(next, i) && Extends(s.sessions[i].value, next.sessions[i].value);
      SubmissionExtends(next, steps[1..], t, i);
    }
  }

  /** A cached entry never changes, whatever the files become, until the session is dropped. */
  lemma {:induction false} CachedEntriesNeverChange(s: System, steps: seq<Step>, t: System, i: nat, path: Path)
    requires IsOpen(s, i) && path in s.sessions[i].value.nested && Runs(s, steps, t)
    requires forall k | 0 <= k < |steps| :: steps[k] != Close(i)
    ensures IsOpen(t, i) && path in t.sessions[i].value.nested
    ensures t.sessions[i].value.nested[path] == s.sessions[i].value.nested[path]
    decreases steps
  {
    hide Discovered;
    if steps != [] {
      assert steps[0] != Close(i);
      if steps[0].Discover? && steps[0].session == i {
        DiscoverExtends(s, steps[0]);
      }
      CachedEntriesNeverChange(Apply(s, steps[0]), steps[1..], t, i, path);
    }
  }

  /** The first blocked source among the candidates. */
  function FirstBlocked(nested: map<Path, Entry>, candidates: seq<Path>): Option<Key>
    requires forall path <- candidates :: path in nested
  {
    if candidates == [] then None
    else
      var before, last := candidates[..|candidates| - 1], candidates[|candidates| - 1];
      var earlier := FirstBlocked(nested, before);
      if earlier.Some? then earlier
      else if nested[last].Cached? && nested[last].source.warning.Some? then Some(Key(last, nested[last].source.warning.value))
      else None
  }

  lemma {:induction false} FirstBlockedStays(s: map<Path, Entry>, t: map<Path, Entry>, candidates: seq<Path>)
    requires forall path <- candidates :: path in s
    requires forall path <- s :: path in t && t[path] == s[path]
    ensures FirstBlocked(t, candidates) == FirstBlocked(s, candidates)
  {
    if candidates != [] {
      FirstBlockedStays(s, t, candidates[..|candidates| - 1]);
    }
  }

  /** After the walk every candidate is settled, and the error is the first blocked one. */
  lemma {:induction false} WalkSettles(s: Shared, candidates: seq<Path>, files: map<Path, Source>)
    requires Readable(files)
    ensures
      var w := WalkedAll(Walk(s, Discovery(false, None, [])), candidates, files);
      && Settled(w.shared.session, candidates)
      && w.found.error == FirstBlocked(w.shared.session.nested, candidates)
  {
    hide Loaded, SlotWeights, ByteWeights;
    if candidates != [] {
      var before, last := candidates[..|candidates| - 1], candidates[|candidates| - 1];
      var w := WalkedAll(Walk(s, Discovery(false, None, [])), before, files);
      WalkSettles(s, before, files);
      LoadedReserves(w.shared, last, files);
      LoadedKeepsActive(w.shared, last, files);
      FirstBlockedStays(w.shared.session.nested, Loaded(w.shared, last, files).session.nested, before);
      assert forall path <- candidates :: path in before || path == last;
    }
  }

  /** A walk over settled candidates changes nothing and finds nothing new. */
  lemma {:induction false} SettledWalk(s: Shared, candidates: seq<Path>, files: map<Path, Source>)
    requires Settled(s.session, candidates)
    ensures
      var w := WalkedAll(Walk(s, Discovery(false, None, [])), candidates, files);
      w.shared == s && !w.found.activated && w.found.warnings == []
  {
    if candidates != [] {
      SettledWalk(s, candidates[..|candidates| - 1], files);
      var last := candidates[|candidates| - 1];
      assert last in candidates;
      assert s.session.nested[last].Cached? ==> s.session.active + {last} == s.session.active;
    }
  }

  lemma SettledDiscovery(s: Shared, candidates: seq<Path>, files: map<Path, Source>, rendered: seq<Warning>)
    requires Readable(files) && Settled(s.session, candidates)
    ensures
      var d := Discovered(s, candidates, files, rendered);
      && d.shared == s && !d.found.activated && d.found.warnings == []
      && d.found.error == FirstBlocked(s.session.nested, candidates)
  {
    hide Added, Walked;
    SettledWalk(s, candidates, files);
    WalkSettles(s, candidates, files);
  }

  lemma DiscoverySettles(s: Shared, candidates: seq<Path>, files: map<Path, Source>, rendered: seq<Warning>)
    requires Readable(files)
    ensures
      var d := Discovered(s, candidates, files, rendered);
      && Settled(d.shared.session, candidates)
      && d.found.error == FirstBlocked(d.shared.session.nested, candidates)
  {
    hide Added, Unreported, WalkedAll;
    WalkSettles(s, candidates, files);
  }

  /**
   Asking again for the same scopes in one submission activates nothing, reports no new warning and changes
   neither the session nor the budget, whatever the files and the other sessions did since; the error of a
   blocked source is returned again.
   */
  lemma RepeatedDiscoveryIsSilent(
      s: System, step: Step, steps: seq<Step>, t: System, files: map<Path, Source>, rendered: seq<Warning>)
    requires Enabled(s, step) && step.Discover? && Readable(files)
    requires Runs(Apply(s, step), steps, t)
    requires forall k | 0 <= k < |steps| :: StaysInSubmission(steps[k], step.session)
    ensures IsOpen(t, step.session)
    ensures
      var again := Discovered(SharedOf(t, step.session), step.candidates, files, rendered);
      && !again.found.activated && again.found.warnings == []
      && again.shared == SharedOf(t, step.session)
      && again.found.error == Discovered(SharedOf(s, step.session), step.candidates, step.files, step.rendered).found.error
  {
    hide Discovered, FirstBlocked;
    var i := step.session;
    var first := Discovered(SharedOf(s, i), step.candidates, step.files, step.rendered);
    DiscoverySettles(SharedOf(s, i), step.candidates, step.files, step.rendered);
    SubmissionExtends(Apply(s, step), steps, t, i);
    assert Apply(s, step).sessions[i].value == first.shared.session;
    FirstBlockedStays(first.shared.session.nested, t.sessions[i].value.nested, step.candidates);
    assert Settled(t.sessions[i].value, step.candidates);
    SettledDiscovery(SharedOf(t, i), step.candidates, files, rendered);
  }

  /**
   After a submission has finished, its report is what a client is shown, unchanged by anything that other
   sessions, files and discoveries do, until the session begins or is dropped; a submission that reported
   no source is not remembered.
   */
  lemma {:induction false} FinishedReportIsShown(s: System, steps: seq<Step>, t: System, i: nat, rendered: Report)
    requires IsOpen(s, i) && !s.sessions[i].value.submissionActive && Runs(s, steps, t)
    requires forall k | 0 <= k < |steps| :: StaysInSubmission(steps[k], i)
    ensures IsOpen(t, i) && !t.sessions[i].value.submissionActive && t.sessions[i].value.last == s.sessions[i].value.last
    ensures
      Reported(t.sessions[i].value, rendered)
      == if s.sessions[i].value.last.summaries != [] then (LastSubmission, s.sessions[i].value.last) else (Base, rendered)
    decreases steps
  {
    hide Discovered;
    if steps != [] {
      assert StaysInSubmission(steps[0], i);
      if steps[0].Discover? && steps[0].session == i {
        DiscoverKeepsReport(SharedOf(s, i), steps[0].candidates, steps[0].files, steps[0].rendered);
      }
      FinishedReportIsShown(Apply(s, steps[0]), steps[1..], t, i, rendered);
    }
  }

  lemma DiscoverKeepsReport(s: Shared, candidates: seq<Path>, files: map<Path, Source>, rendered: seq<Warning>)
    ensures
      var t := Discovered(s, candidates, files, rendered).shared.session;
      t.last == s.session.last && t.submissionActive == s.session.submissionActive
  {
    hide Added, Unreported, Walked;
    WalkKeepsReport(Walk(s, Discovery(false, None, [])), candidates, files);
  }

  lemma {:induction false} WalkKeepsReport(w: Walk, candidates: seq<Path>, files: map<Path, Source>)
    ensures
      var t := WalkedAll(w, candidates, files).shared.session;
      t.last == w.shared.session.last && t.submissionActive == w.shared.session.submissionActive
  {
    if candidates != [] {
      WalkKeepsReport(w, candidates[..|candidates| - 1], files);
    }
  }

  // ---------------------------------------------------------------- what a discovery activates and reports

  /** A candidate that was not active before and is there afterwards, with content or blocked. */
  ghost predicate NewlyActive(s: Session, t: Session, path: Path) {
    && path !in s.active && path in t.nested && t.nested[path].Cached?
    && (t.nested[path].source.content.Some? || t.nested[path].source.warning.Some?)
  }

  ghost predicate NewlyBlocked(s: Session, t: Session, path: Path) {
    path !in s.active && path in t.nested && t.nested[path].Cached? && t.nested[path].source.warning.Some?
  }

  /** The warning is that of a newly active candidate which is blocked. */
  ghost predicate WarnsOf(s: Session, t: Session, candidates: seq<Path>, warning: Warning) {
    exists path <- candidates ::
      NewlyBlocked(s, t, path) && warning == Warning(path, t.nested[path].source.warning.value, 0)
  }

  ghost predicate Activates(s: Session, t: Session, candidates: seq<Path>) {
    exists path <- candidates :: NewlyActive(s, t, path)
  }

  function CachedAmong(nested: map<Path, Entry>, candidates: seq<Path>): set<Path> {
    set path | path in candidates && path in nested && nested[path].Cached?
  }

  /** The walk has found what is newly active, and warns of what is blocked among it. */
  ghost predicate FoundIn(s: Session, t: Session, candidates: seq<Path>, found: Discovery) {
    && (found.activated <==> Activates(s, t, candidates))
    && t.active == s.active + CachedAmong(t.nested, candidates)
    && (forall warning :: warning in found.warnings <==> WarnsOf(s, t, candidates, warning))
  }

  lemma FoundInMore(s: Session, t: Session, u: Session, candidates: seq<Path>, found: Discovery)
    requires FoundIn(s, t, candidates, found) && u.active == t.active
    requires forall path <- candidates :: path in t.nested && path in u.nested && u.nested[path] == t.nested[path]
    ensures FoundIn(s, u, candidates, found)
  {
    assert forall path <- candidates :: NewlyActive(s, u, path) <==> NewlyActive(s, t, path);
    assert forall path <- candidates :: NewlyBlocked(s, u, path) <==> NewlyBlocked(s, t, path);
    assert CachedAmong(u.nested, candidates) == CachedAmong(t.nested, candidates);
    forall warning ensures WarnsOf(s, u, candidates, warning) <==> WarnsOf(s, t, candidates, warning) {
    }
  }

  lemma VisitFinds(s: Session, t: Session, candidates: seq<Path>, found: Discovery, path: Path)
    requires FoundIn(s, t, candidates, found) && path in t.nested
    ensures
      var (u, more) := Visited(t, found, path);
      u.nested == t.nested && FoundIn(s, u, candidates + [path], more)
  {
    var (u, more) := Visited(t, found, path);
    var all := candidates + [path];
    assert forall p :: p in all <==> p in candidates || p == path;
    assert forall p :: NewlyActive(s, u, p) <==> NewlyActive(s, t, p);
    assert forall p :: NewlyBlocked(s, u, p) <==> NewlyBlocked(s, t, p);
    assert CachedAmong(u.nested, all) == CachedAmong(t.nested, candidates) + CachedAmong(t.nested, [path]);
    assert Activates(s, u, all) <==> Activates(s, t, candidates) || NewlyActive(s, t, path);
    forall warning
      ensures WarnsOf(s, u, all, warning) <==>
              || WarnsOf(s, t, candidates, warning)
              || (NewlyBlocked(s, t, path) && warning == Warning(path, t.nested[path].source.warning.value, 0))
    {
      WarnsOfOneMore(s, t, candidates, path, warning);
      assert WarnsOf(s, u, all, warning) <==> WarnsOf(s, t, all, warning);
    }
  }

  lemma WarnsOfOneMore(s: Session, t: Session, candidates: seq<Path>, path: Path, warning: Warning)
    ensures WarnsOf(s, t, candidates + [path], warning) <==>
            || WarnsOf(s, t, candidates, warning)
            || (NewlyBlocked(s, t, path) && warning == Warning(path, t.nested[path].source.warning.value, 0))
  {
    assert forall p :: p in candidates + [path] <==> p in candidates || p == path;
  }

  lemma {:induction false} WalkFinds(s: Shared, candidates: seq<Path>, files: map<Path, Source>)
    requires Readable(files)
    ensures
      var w := WalkedAll(Walk(s, Discovery(false, None, [])), candidates, files);
      FoundIn(s.session, w.shared.session, candidates, w.found)
  {
    hide Loaded, Visited, FoundIn, SlotWeights, ByteWeights;
    if candidates == [] {
      NothingFound(s.session);
    } else {
      var before, last := candidates[..|candidates| - 1], candidates[|candidates| - 1];
      var w := WalkedAll(Walk(s, Discovery(false, None, [])), before, files);
      WalkFinds(s, before, files);
      WalkSettles(s, before, files);
      LoadedReserves(w.shared, last, files);
      LoadedKeepsActive(w.shared, last, files);
      var loaded := Loaded(w.shared, last, files).session;
      FoundInMore(s.session, w.shared.session, loaded, before, w.found);
      VisitFinds(s.session, loaded, before, w.found, last);
      assert before + [last] == candidates;
    }
  }

  lemma NothingFound(s: Session)
    ensures FoundIn(s, s, [], Discovery(false, None, []))
  {
  }

  lemma {:induction false} AddedMembers(warnings: seq<Warning>, more: seq<Warning>, warning: Warning)
    ensures warning in Added(warnings, more) <==> warning in warnings || warning in more
  {
    if more != [] {
      AddedMembers(warnings, more[..|more| - 1], warning);
    }
  }

  ghost predicate DistinctKeys(warnings: seq<Warning>) {
    forall i, j | 0 <= i < j < |warnings| :: KeyOf(warnings[i]) != KeyOf(warnings[j])
  }

  ghost predicate HasKey(warnings: seq<Warning>, key: Key) {
    exists warning <- warnings :: warning.path == key.path && warning.reason == key.reason
  }

  lemma {:induction false} UnreportedKeys(warnings: seq<Warning>, reported: set<Key>)
    ensures
      var (kept, keys) := Unreported(warnings, reported);
      && DistinctKeys(kept)
      && (forall warning <- kept :: warning in warnings)
      && (forall key: Key :: HasKey(kept, key) <==> HasKey(warnings, key) && key !in reported)
      && (forall key: Key :: key in keys <==> key in reported || HasKey(warnings, key))
  {
    if warnings != [] {
      var before, last := warnings[..|warnings| - 1], warnings[|warnings| - 1];
      UnreportedKeys(before, reported);
      var (front, _) := Unreported(before, reported);
      forall key: Key ensures HasKey(warnings, key) <==> HasKey(before, key) || key == KeyOf(last) {
        assert warnings == before + [last];
        OneMoreKey(before, last, key);
      }
      forall key: Key ensures HasKey(front + [last], key) <==> HasKey(front, key) || key == KeyOf(last) {
        OneMoreKey(front, last, key);
      }
      forall i | 0 <= i < |front| ensures HasKey(front, KeyOf(front[i])) {
        assert front[i] in front;
      }
    }
  }

  lemma OneMoreKey(warnings: seq<Warning>, last: Warning, key: Key)
    ensures HasKey(warnings + [last], key) <==> HasKey(warnings, key) || key == Key(last.path, last.reason)
  {
    assert forall warning :: warning in warnings + [last] <==> warning in warnings || warning == last;
  }

  /** The key is that of a newly active candidate which is blocked. */
  ghost predicate BlockedKey(s: Session, t: Session, candidates: seq<Path>, key: Key) {
    && key.path in candidates && NewlyBlocked(s, t, key.path)
    && t.nested[key.path].source.warning == Some(key.reason)
  }

  lemma WarnsOfKey(s: Session, t: Session, candidates: seq<Path>, warnings: seq<Warning>, key: Key)
    requires forall warning :: warning in warnings <==> WarnsOf(s, t, candidates, warning)
    ensures HasKey(warnings, key) <==> BlockedKey(s, t, candidates, key)
  {
    if HasKey(warnings, key) {
      var warning :| warning in warnings && warning.path == key.path && warning.reason == key.reason;
      assert WarnsOf(s, t, candidates, warning);
    }
    if BlockedKey(s, t, candidates, key) {
      assert WarnsOf(s, t, candidates, Warning(key.path, key.reason, 0));
    }
  }

  /**
   A discovery activates iff some candidate was not active before and is cached afterwards, with content or
   blocked; exactly the cached candidates become active. Its error is the first blocked candidate. It reports
   exactly the keys not reported before of the newly active blocked candidates and, if something was activated
   and nothing is blocked, of the rendering, each once, and remembers them.
   */
  lemma DiscoveryIsExact(s: Shared, candidates: seq<Path>, files: map<Path, Source>, rendered: seq<Warning>)
    requires Readable(files)
    ensures
      var d := Discovered(s, candidates, files, rendered);
      var (before, after, found) := (s.session, d.shared.session, d.found);
      && (found.activated <==> exists path <- candidates :: NewlyActive(before, after, path))
      && after.active == before.active + (set path | path in candidates && path in after.nested && after.nested[path].Cached?)
      && (forall path <- candidates :: path in after.nested)
      && found.error == FirstBlocked(after.nested, candidates)
      && DistinctKeys(found.warnings)
      && (forall key: Key ::
            HasKey(found.warnings, key) <==>
              && key !in before.reported
              && (BlockedKey(before, after, candidates, key) || (found.activated && found.error.None? && HasKey(rendered, key))))
      && (forall key: Key ::
            key in after.reported <==>
              || key in before.reported || BlockedKey(before, after, candidates, key)
              || (found.activated && found.error.None? && HasKey(rendered, key)))
  {
    hide WalkedAll, Loaded, Visited, Added, Unreported, FirstBlocked, SlotWeights, ByteWeights, BlockedKey, HasKey;
    var w := WalkedAll(Walk(s, Discovery(false, None, [])), candidates, files);
    WalkFinds(s, candidates, files);
    WalkSettles(s, candidates, files);
    var more := w.found.activated && w.found.error.None?;
    var warnings := if more then Added(w.found.warnings, rendered) else w.found.warnings;
    UnreportedKeys(warnings, w.shared.session.reported);
    WalkKeepsReported(Walk(s, Discovery(false, None, [])), candidates, files);
    var after := Discovered(s, candidates, files, rendered).shared.session;
    assert Activates(s.session, after, candidates) <==> Activates(s.session, w.shared.session, candidates);
    forall key: Key
      ensures HasKey(warnings, key) <==> BlockedKey(s.session, after, candidates, key) || (more && HasKey(rendered, key))
    {
      WarnsOfKey(s.session, w.shared.session, candidates, w.found.warnings, key);
      SameBlockedKey(s.session, w.shared.session, after, candidates, key);
      if more {
        AddedKey(w.found.warnings, rendered, key);
      }
    }
  }

  lemma SameBlockedKey(s: Session, t: Session, u: Session, candidates: seq<Path>, key: Key)
    requires u.nested == t.nested
    ensures BlockedKey(s, t, candidates, key) <==> BlockedKey(s, u, candidates, key)
  {
  }

  lemma AddedKey(warnings: seq<Warning>, more: seq<Warning>, key: Key)
    ensures HasKey(Added(warnings, more), key) <==> HasKey(warnings, key) || HasKey(more, key)
  {
    hide Added;
    forall warning ensures warning in Added(warnings, more) <==> warning in warnings || warning in more {
      AddedMembers(warnings, more, warning);
    }
  }

  lemma {:induction false} WalkKeepsReported(w: Walk, candidates: seq<Path>, files: map<Path, Source>)
    ensures WalkedAll(w, candidates, files).shared.session.reported == w.shared.session.reported
  {
    if candidates != [] {
      WalkKeepsReported(w, candidates[..|candidates| - 1], files);
    }
  }

  /**
   What the first look at a path decides: nothing if it was looked at before; that it is missing; that it is
   cached, which takes one slot and its bytes; or, beyond 256 slots or eight mebibytes, that it is blocked.
   */
  lemma FirstLookDecides(s: Shared, path: Path, files: map<Path, Source>)
    ensures
      var t := Loaded(s, path, files);
      && (forall other <- s.session.nested :: other in t.session.nested && t.session.nested[other] == s.session.nested[other])
      && t.session.nested.Keys == s.session.nested.Keys + {path}
      && (path in s.session.nested || path !in files ==> t.budget == s.budget)
      && (path !in s.session.nested && path !in files ==> t.session.nested[path] == Missing)
      && (path !in s.session.nested && path in files ==>
            var length := if files[path].content.Some? then |files[path].content.value| else 0;
            if s.budget.slots < 256 && s.budget.bytes + length <= 8388608
            then
              && t.session.nested[path] == Cached(files[path])
              && t.budget == Budget(s.budget.slots + 1, s.budget.bytes + length)
            else
              && t.session.nested[path] == Cached(Source(None, Some(ConversationLimit)))
              && t.budget == s.budget)
  {
  }

  /** A new submission has activated and reported nothing: what is cached is activated and reported again. */
  lemma NewSubmissionStartsOver(
      session: Session, budget: Budget, candidates: seq<Path>, files: map<Path, Source>, rendered: seq<Warning>)
    requires Readable(files)
    ensures
      var d := Discovered(Shared(Begun(session), budget), candidates, files, rendered);
      var after := d.shared.session;
      && after.submissionActive
      && (d.found.activated <==>
            exists path <- candidates ::
              && path in after.nested && after.nested[path].Cached?
              && (after.nested[path].source.content.Some? || after.nested[path].source.warning.Some?))
      && (forall key: Key | key.path in candidates && key.path in after.nested && after.nested[key.path].Cached?
                            && after.nested[key.path].source.warning == Some(key.reason) ::
            HasKey(d.found.warnings, key))
  {
    hide WalkedAll, Added, Unreported, FirstBlocked, HasKey;
    var s := Shared(Begun(session), budget);
    DiscoveryIsExact(s, candidates, files, rendered);
    DiscoverKeepsReport(s, candidates, files, rendered);
    var d := Discovered(s, candidates, files, rendered);
    assert forall path :: NewlyActive(s.session, d.shared.session, path) <==>
      && path in d.shared.session.nested && d.shared.session.nested[path].Cached?
      && (d.shared.session.nested[path].source.content.Some? || d.shared.session.nested[path].source.warning.Some?);
  }

  /** What a finished submission had activated is activated again, even if no new one is begun. */
  lemma FinishedSubmissionStartsOver(
      session: Session, report: Report, budget: Budget, candidates: seq<Path>, files: map<Path, Source>, rendered: seq<Warning>)
    requires Readable(files)
    ensures
      var d := Discovered(Shared(Finished(session, report), budget), candidates, files, rendered);
      var after := d.shared.session;
      && !after.submissionActive && after.last == report
      && (d.found.activated <==>
            exists path <- candidates ::
              && path in after.nested && after.nested[path].Cached?
              && (after.nested[path].source.content.Some? || after.nested[path].source.warning.Some?))
  {
    hide WalkedAll, Added, Unreported, FirstBlocked, HasKey;
    var s := Shared(Finished(session, report), budget);
    DiscoveryIsExact(s, candidates, files, rendered);
    DiscoverKeepsReport(s, candidates, files, rendered);
    var d := Discovered(s, candidates, files, rendered);
    assert forall path :: NewlyActive(s.session, d.shared.session, path) <==>
      && path in d.shared.session.nested && d.shared.session.nested[path].Cached?
      && (d.shared.session.nested[path].source.content.Some? || d.shared.session.nested[path].source.warning.Some?);
  }

  /** While a submission is active its own sources are shown, and once it has finished, the report it ended with. */
  lemma ReportOfSubmission(s: System, i: nat, report: Report, steps: seq<Step>, t: System, rendered: Report)
    requires IsOpen(s, i) && forall k | 0 <= k < |steps| :: StaysInSubmission(steps[k], i)
    ensures
      Runs(Apply(s, Begin(i)), steps, t) ==>
        IsOpen(t, i) && Reported(t.sessions[i].value, rendered) == (ActiveSubmission, rendered)
    ensures
      Runs(Apply(s, Finish(i, report)), steps, t) ==>
        && IsOpen(t, i)
        && Reported(t.sessions[i].value, rendered)
           == (if report.summaries != [] then (LastSubmission, report) else (Base, rendered))
  {
    hide Runs;
    if Runs(Apply(s, Begin(i)), steps, t) {
      SubmissionStaysActive(Apply(s, Begin(i)), steps, t, i);
    }
    if Runs(Apply(s, Finish(i, report)), steps, t) {
      FinishedReportIsShown(Apply(s, Finish(i, report)), steps, t, i, rendered);
    }
  }

  lemma {:induction false} SubmissionStaysActive(s: System, steps: seq<Step>, t: System, i: nat)
    requires IsOpen(s, i) && s.sessions[i].value.submissionActive && Runs(s, steps, t)
    requires forall k | 0 <= k < |steps| :: StaysInSubmission(steps[k], i)
    ensures IsOpen(t, i) && t.sessions[i].value.submissionActive
    decreases steps
  {
    hide Discovered;
    if steps != [] {
      assert StaysInSubmission(steps[0], i);
      if steps[0].Discover? && steps[0].session == i {
        DiscoverKeepsReport(SharedOf(s, i), steps[0].candidates, steps[0].files, steps[0].rendered);
      }
      SubmissionStaysActive(Apply(s, steps[0]), steps[1..], t, i);
    }
  }
}
