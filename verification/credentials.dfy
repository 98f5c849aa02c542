/**
 Credential records, their mutation epochs, and the two operations that are conditional on an epoch:
 admitting a fetched model catalog and storing a rotated credential.

 Credential mutations hold one lock, `credential_operations`, across a file write, an epoch bump and a
 cache eviction. Status queries and the credential-less sign-in bump epochs without that lock.
 */
module Credentials {
  import opened Wrappers
  import Cache = ModelCache

  type Provider = Cache.Provider

  /** An opaque credential record; only its `type` is ever looked at. */
  datatype Record = Record(kind: Option<string>, secret: string)

  datatype AuthState = AuthState(authenticated: bool, credentialMethod: Option<string>, epoch: nat)

  datatype CredentialEpoch = CredentialEpoch(value: nat, present: bool)

  datatype MethodChange = Preserve | Set(credentialMethod: Option<string>)

  /** Everything the protocols share: the credential file, the epochs and the catalog cache. */
  datatype Core = Core(records: map<Provider, Record>, states: map<Provider, AuthState>, cache: Cache.Store)

  // ---------------------------------------------------------------- critical sections

  function RecordOf(c: Core, provider: Provider): Option<Record> {
    Lookup(c.records, provider)
  }

  function EpochOf(c: Core, provider: Provider): CredentialEpoch {
    if provider in c.states
    then CredentialEpoch(c.states[provider].epoch, c.states[provider].authenticated)
    else CredentialEpoch(0, false)
  }

  function Recorded(c: Core, provider: Provider, authenticated: bool, change: MethodChange): Core {
    var state := LookupOr(c.states, provider, AuthState(false, None, 0));
    var credentialMethod := if change.Set? then change.credentialMethod else state.credentialMethod;
    c.(states := c.states[provider := AuthState(authenticated, credentialMethod, state.epoch + 1)])
  }

  /** What a locked mutation does to the credential file. */
  datatype Mutation =
    | Save(record: Record)  // a response that carries credentials
    | Touch                 // a response without credentials leaves the file alone
    | Remove                // logout

  function FileAfter(c: Core, provider: Provider, mutation: Mutation): Core {
    match mutation
    case Save(record) => c.(records := c.records[provider := record])
    case Touch => c
    case Remove => c.(records := c.records - {provider})
  }

  function ChangeOf(mutation: Mutation): MethodChange {
    match mutation
    case Save(record) => Set(record.kind)
    case Touch => Preserve
    case Remove => Set(None)
  }

  function Evicted(c: Core, provider: Provider, epoch: nat): Core {
    c.(cache := Cache.AfterRemove(c.cache, provider, epoch))
  }

  /** A whole locked mutation: file, then epoch, then cache. */
  function Mutated(c: Core, provider: Provider, mutation: Mutation, present: bool): Core {
    var recorded := Recorded(FileAfter(c, provider, mutation), provider, present, ChangeOf(mutation));
    Evicted(recorded, provider, EpochOf(recorded, provider).value)
  }

  predicate Current(c: Core, provider: Provider, expected: CredentialEpoch) {
    EpochOf(c, provider).value == expected.value
  }

  function Admitted(c: Core, provider: Provider, expected: CredentialEpoch, catalog: Cache.Catalog): Core {
    if Current(c, provider, expected) && expected.present
    then c.(cache := Cache.AfterSave(c.cache, provider, catalog, expected.value))
    else c
  }

  /** Tags belong to cached catalogs and never exceed the provider's epoch. */
  ghost predicate TagsBounded(c: Core) {
    forall p <- c.cache.epochs :: p in c.cache.file && c.cache.epochs[p] <= EpochOf(c, p).value
  }

  /**
   A mutation leaves nothing cached for its provider, advances its epoch by one, and leaves every
   other provider's record, state and catalog alone.
   */
  lemma MutationEvictsAndAdvances(c: Core, provider: Provider, mutation: Mutation, present: bool)
    requires TagsBounded(c)
    ensures
      var d := Mutated(c, provider, mutation, present);
      && TagsBounded(d)
      && provider !in d.cache.file
      && EpochOf(d, provider) == CredentialEpoch(EpochOf(c, provider).value + 1, present)
      && RecordOf(d, provider) == (match mutation case Save(r) => Some(r) case Touch => RecordOf(c, provider) case Remove => None)
      && forall q | q != provider ::
           && RecordOf(d, q) == RecordOf(c, q) && EpochOf(d, q) == EpochOf(c, q)
           && Lookup(d.cache.file, q) == Lookup(c.cache.file, q)
  {
  }

  // ---------------------------------------------------------------- the core object

  /** Whether the credential file and the cache file can be written. */
  datatype FileIo = FileIo(saved: bool, cached: bool)

  /** What the credentials of a response, if it carries any, do to the file. */
  function MutationOf(response: Option<Record>): Mutation {
    if response.Some? then Save(response.value) else Touch
  }

  class CoreState {
    var records: map<Provider, Record>
    var states: map<Provider, AuthState>
    const cache: Cache.ModelCatalogStore

    ghost function View(): Core
      reads this, cache
    {
      Core(records, states, cache.View())
    }

    constructor (records: map<Provider, Record>, providers: set<Provider>, cache: Cache.ModelCatalogStore)
      ensures this.cache == cache && this.records == records
      ensures states.Keys == providers
      ensures forall p <- providers ::
                && EpochOf(View(), p) == CredentialEpoch(0, p in records)
                && states[p].credentialMethod == if p in records then records[p].kind else None
    {
      this.records := records;
      this.cache := cache;
      states := map p | p in providers ::
        AuthState(p in records, if p in records then records[p].kind else None, 0);
    }

    method CurrentEpoch(provider: Provider) returns (epoch: CredentialEpoch)
      ensures epoch == EpochOf(View(), provider)
    {
      if provider in states {
        epoch := CredentialEpoch(states[provider].epoch, states[provider].authenticated);
      } else {
        epoch := CredentialEpoch(0, false);
      }
    }

    method RecordAuthentication(provider: Provider, authenticated: bool, change: MethodChange)
      returns (epoch: nat)
      modifies this`states
      ensures View() == Recorded(old(View()), provider, authenticated, change)
      ensures epoch == EpochOf(View(), provider).value
    {
      var state := LookupOr(states, provider, AuthState(false, None, 0));
      state := state.(authenticated := authenticated);
      if change.Set? {
        state := state.(credentialMethod := change.credentialMethod);
      }
      state := state.(epoch := state.epoch + 1);
      states := states[provider := state];
      epoch := state.epoch;
    }

    /**
     The locked mutation shared by completion, refresh and rotation. `response` is its credentials. A
     record that cannot be saved ends it with nothing changed; the cache file is written on a best-effort
     basis.
     */
    method StoreCredentialsLocked(provider: Provider, response: Option<Record>, present: bool, io: FileIo) returns (ok: bool)
      modifies this, cache
      ensures ok <==> response.None? || io.saved
      ensures View() == if ok then Mutated(old(View()), provider, MutationOf(response), present) else old(View())
      ensures old(cache.InSync()) && (io.cached || !ok) ==> cache.InSync()
    {
      var change := Preserve;
      if response.Some? {
        change := Set(response.value.kind);
        if !io.saved {
          return false;
        }
        records := records[provider := response.value];
      }
      var epoch := RecordAuthentication(provider, present, change);
      Evict(provider, epoch, io.cached);
      ok := true;
    }

    /** A rotation is dropped, and its credentials with it, unless the epoch is still the captured one. */
    method StoreCredentialsIfEpoch(
        provider: Provider, expected: CredentialEpoch, response: Option<Record>, present: bool, io: FileIo) returns (ok: bool)
      modifies this, cache
      ensures
        var current := LookupOr(old(states), provider, AuthState(false, None, 0)).epoch == expected.value;
        && (ok <==> !current || response.None? || io.saved)
        && View() == if ok && current then Mutated(old(View()), provider, MutationOf(response), present) else old(View())
      ensures ok && View() != old(View()) && response.Some? ==> records == old(records)[provider := response.value]
      ensures old(cache.InSync()) && io.cached ==> cache.InSync()
    {
      var now := CurrentEpoch(provider);
      if now.value != expected.value {
        return true;
      }
      ok := StoreCredentialsLocked(provider, response, present, io);
    }

    method RemoveCredentials(provider: Provider, io: FileIo) returns (ok: bool)
      modifies this, cache
      ensures ok <==> io.saved
      ensures View() == if ok then Mutated(old(View()), provider, Remove, false) else old(View())
      ensures old(cache.InSync()) && (io.cached || !ok) ==> cache.InSync()
    {
      if !io.saved {
        return false;
      }
      records := records - {provider};
      var epoch := RecordAuthentication(provider, false, Set(None));
      Evict(provider, epoch, io.cached);
      ok := true;
    }

    method SaveModelsIfCurrent(provider: Provider, expected: CredentialEpoch, catalog: Cache.Catalog, io: FileIo)
      modifies cache
      ensures View() == Admitted(old(View()), provider, expected, catalog)
      ensures
        if expected.present && LookupOr(states, provider, AuthState(false, None, 0)).epoch == expected.value
        then cache.file == old(cache.file)[provider := catalog]
        else cache.View() == old(cache.View())
      ensures old(cache.InSync()) && io.cached ==> cache.InSync()
    {
      var now := CurrentEpoch(provider);
      if now.value != expected.value || !expected.present {
        return;
      }
      var write := cache.StageSaveWithSource(provider, catalog, expected.value);
      var _, _ := cache.Persist(write, [], _ => io.cached);
    }

    method Evict(provider: Provider, epoch: nat, cached: bool)
      modifies cache
      ensures View() == Evicted(old(View()), provider, epoch)
      ensures old(cache.InSync()) && cached ==> cache.InSync()
    {
      var write := cache.StageRemove(provider, epoch);
      if write.Some? {
        var _, _ := cache.Persist(write.value, [], _ => cached);
      }
    }
  }

  // ---------------------------------------------------------------- interleaving

  type Actor = nat

  /**
   Where one actor stands. `since` is how often the provider's record had been written or removed when
   the actor captured its epoch; `basis` remembers that count for a mutation that started as a rotation.
   */
  datatype Pc =
    | Fetching(provider: Provider, epoch: CredentialEpoch)
    | Requested(provider: Provider, epoch: CredentialEpoch, sent: Option<Record>)
    | Admitting(provider: Provider, epoch: CredentialEpoch, sent: Option<Record>)
    | Rotating(provider: Provider, epoch: CredentialEpoch, since: nat, record: Record)
    | RotationLocked(provider: Provider, epoch: CredentialEpoch, since: nat, record: Record)
    | Mutating(provider: Provider, mutation: Mutation, present: bool, basis: Option<nat>)
    | FileWritten(provider: Provider, mutation: Mutation, present: bool)
    | Bumped(provider: Provider, recorded: nat)
    | Releasing

  /**
   `versions` counts the writes and removals of each provider's record, `settled` is the epoch its last
   locked mutation recorded, `fetchedWith` the record that was sent for each admitted catalog, and
   `observed` counts the status queries since its admission. `noted` is what mutations and status queries
   have said about each provider, and how many there were; `captured` what had been said when an actor began.
   */
  datatype System = System(
    core: Core,
    lock: Option<Actor>,
    actors: map<Actor, Pc>,
    versions: map<Provider, nat>,
    settled: map<Provider, nat>,
    fetchedWith: map<Provider, Option<Record>>,
    observed: map<Provider, nat>,
    noted: map<Provider, Noted>,
    captured: map<Actor, Noted>)

  datatype Noted = Noted(count: nat, authenticated: bool, credentialMethod: Option<string>)

  function NotedOf(s: System, provider: Provider): Noted {
    LookupOr(s.noted, provider, Noted(0, false, None))
  }

  datatype Step =
    | BeginFetch(actor: Actor, provider: Provider)
    | SendRequest(actor: Actor)
    | LockForAdmission(actor: Actor)
    | Admit(actor: Actor, catalog: Cache.Catalog)
    | BeginRotation(actor: Actor, provider: Provider, record: Record)
    | LockForRotation(actor: Actor)
    | CheckRotation(actor: Actor)
    | LockForMutation(actor: Actor, provider: Provider, mutation: Mutation, present: bool)
    | WriteRecord(actor: Actor)
    | FailRecord(actor: Actor)
    | BumpEpoch(actor: Actor)
    | EvictCatalog(actor: Actor)
    | Release(actor: Actor)
    | Abandon(actor: Actor)
    | Observe(provider: Provider, authenticated: bool, change: MethodChange)

  predicate Holds(pc: Pc) {
    !pc.Fetching? && !pc.Requested? && !pc.Rotating?
  }

  function VersionOf(s: System, provider: Provider): nat {
    LookupOr(s.versions, provider, 0)
  }

  predicate Enabled(s: System, step: Step) {
    match step
    case BeginFetch(a, _) => a !in s.actors
    case SendRequest(a) => a in s.actors && s.actors[a].Fetching?
    case LockForAdmission(a) => s.lock.None? && a in s.actors && s.actors[a].Requested?
    case Admit(a, _) => a in s.actors && s.actors[a].Admitting?
    case BeginRotation(a, _, _) => a !in s.actors
    case LockForRotation(a) => s.lock.None? && a in s.actors && s.actors[a].Rotating?
    case CheckRotation(a) => a in s.actors && s.actors[a].RotationLocked?
    case LockForMutation(a, _, _, _) => s.lock.None? && a !in s.actors
    case WriteRecord(a) => a in s.actors && s.actors[a].Mutating?
    case FailRecord(a) => a in s.actors && s.actors[a].Mutating?
    case BumpEpoch(a) => a in s.actors && s.actors[a].FileWritten?
    case EvictCatalog(a) => a in s.actors && s.actors[a].Bumped?
    case Release(a) => a in s.actors && s.actors[a].Releasing?
    case Abandon(a) => a in s.actors && !Holds(s.actors[a])
    case Observe(_, _, _) => true
  }

  /** The method of a provider is that of the record last stored, and none after a logout. */
  function MethodAfter(before: Option<string>, mutation: Mutation): Option<string> {
    match mutation
    case Save(record) => record.kind
    case Touch => before
    case Remove => None
  }

  function Apply(s: System, step: Step): System
    requires Enabled(s, step)
  {
    match step
    case BeginFetch(a, p) =>
      s.(actors := s.actors[a := Fetching(p, EpochOf(s.core, p))], captured := s.captured[a := NotedOf(s, p)])
    case SendRequest(a) =>
      var pc := s.actors[a];
      s.(actors := s.actors[a := Requested(pc.provider, pc.epoch, RecordOf(s.core, pc.provider))])
    case LockForAdmission(a) =>
      var pc := s.actors[a];
      s.(lock := Some(a), actors := s.actors[a := Admitting(pc.provider, pc.epoch, pc.sent)])
    case Admit(a, catalog) =>
      var pc := s.actors[a];
      s.(core := Admitted(s.core, pc.provider, pc.epoch, catalog),
         fetchedWith := if Current(s.core, pc.provider, pc.epoch) && pc.epoch.present
                        then s.fetchedWith[pc.provider := pc.sent] else s.fetchedWith,
         observed := if Current(s.core, pc.provider, pc.epoch) && pc.epoch.present
                     then s.observed[pc.provider := 0] else s.observed,
         actors := s.actors[a := Releasing])
    case BeginRotation(a, p, record) =>
      s.(actors := s.actors[a := Rotating(p, EpochOf(s.core, p), VersionOf(s, p), record)],
         captured := s.captured[a := NotedOf(s, p)])
    case LockForRotation(a) =>
      var pc := s.actors[a];
      s.(lock := Some(a), actors := s.actors[a := RotationLocked(pc.provider, pc.epoch, pc.since, pc.record)])
    case CheckRotation(a) =>
      var pc := s.actors[a];
      s.(actors := s.actors[a :=
        if Current(s.core, pc.provider, pc.epoch)
        then Mutating(pc.provider, Save(pc.record), true, Some(pc.since))
        else Releasing])
    case LockForMutation(a, p, mutation, present) =>
      s.(lock := Some(a), actors := s.actors[a := Mutating(p, mutation, present, None)])
    case WriteRecord(a) =>
      var pc := s.actors[a];
      s.(core := FileAfter(s.core, pc.provider, pc.mutation),
         versions := if pc.mutation.Touch? then s.versions
                     else s.versions[pc.provider := VersionOf(s, pc.provider) + 1],
         actors := s.actors[a := FileWritten(pc.provider, pc.mutation, pc.present)])
    case FailRecord(a) =>
      s.(actors := s.actors[a := Releasing])
    case BumpEpoch(a) =>
      var pc := s.actors[a];
      var core := Recorded(s.core, pc.provider, pc.present, ChangeOf(pc.mutation));
      var epoch := EpochOf(core, pc.provider).value;
      s.(core := core, settled := s.settled[pc.provider := epoch],
         noted := s.noted[pc.provider := Noted(
           NotedOf(s, pc.provider).count + 1, pc.present, MethodAfter(NotedOf(s, pc.provider).credentialMethod, pc.mutation))],
         actors := s.actors[a := Bumped(pc.provider, epoch)])
    case EvictCatalog(a) =>
      var pc := s.actors[a];
      s.(core := Evicted(s.core, pc.provider, pc.recorded), actors := s.actors[a := Releasing])
    case Release(a) =>
      s.(lock := None, actors := s.actors - {a})
    case Abandon(a) =>
      s.(actors := s.actors - {a})
    case Observe(p, authenticated, change) =>
      s.(core := Recorded(s.core, p, authenticated, change),
         observed := s.observed[p := LookupOr(s.observed, p, 0) + 1],
         noted := s.noted[p := Noted(
           NotedOf(s, p).count + 1, authenticated,
           if change.Set? then change.credentialMethod else NotedOf(s, p).credentialMethod)])
  }

  ghost predicate Runs(s: System, steps: seq<Step>, t: System)
    decreases steps
  {
    if steps == [] then s == t
    else Enabled(s, steps[0]) && Runs(Apply(s, steps[0]), steps[1..], t)
  }

  /** A freshly built core: epochs are zero and no catalog has been admitted yet. */
  ghost predicate Initial(s: System) {
    && s.lock == None && s.actors == map[]
    && (forall p :: EpochOf(s.core, p).value == 0)
    && s.core.cache.epochs == map[]
    && s.versions == map[] && s.settled == map[] && s.fetchedWith == map[] && s.observed == map[]
    && s.captured == map[] && s.noted.Keys == s.core.states.Keys
    && forall p <- s.core.states ::
         s.noted[p] == Noted(0, s.core.states[p].authenticated, s.core.states[p].credentialMethod)
  }

  ghost predicate Moves(s: System, step: Step, t: System) {
    Enabled(s, step) && t == Apply(s, step)
  }

  lemma {:induction false} PathIsRun(path: seq<System>, steps: seq<Step>)
    requires |path| == |steps| + 1
    requires forall i | 0 <= i < |steps| :: Moves(path[i], steps[i], path[i + 1])
    ensures Runs(path[0], steps, path[|steps|])
    decreases steps
  {
    if steps != [] {
      assert Moves(path[0], steps[0], path[1]);
      forall i | 0 <= i < |steps| - 1 ensures Moves(path[1..][i], steps[1..][i], path[1..][i + 1]) {
        assert Moves(path[i + 1], steps[i + 1], path[i + 2]);
      }
      PathIsRun(path[1..], steps[1..]);
    }
  }

  lemma MutationFile(s: System, a: Actor, p: Provider, mutation: Mutation, present: bool) returns (s1: System, s2: System)
    requires s.lock == None && a !in s.actors
    ensures Moves(s, LockForMutation(a, p, mutation, present), s1) && Moves(s1, WriteRecord(a), s2)
    ensures s2.core == FileAfter(s.core, p, mutation) && s2.lock == Some(a)
    ensures s2.actors == s.actors[a := FileWritten(p, mutation, present)]
  {
    s1 := Apply(s, LockForMutation(a, p, mutation, present));
    s2 := Apply(s1, WriteRecord(a));
  }

  lemma MutationEnds(s: System, a: Actor, p: Provider, mutation: Mutation, present: bool)
      returns (s3: System, s4: System, t: System)
    requires a in s.actors && s.actors[a] == FileWritten(p, mutation, present)
    ensures Moves(s, BumpEpoch(a), s3) && Moves(s3, EvictCatalog(a), s4) && Moves(s4, Release(a), t)
    ensures
      var recorded := Recorded(s.core, p, present, ChangeOf(mutation));
      t.core == Evicted(recorded, p, EpochOf(recorded, p).value)
    ensures t.lock == None && t.actors == s.actors - {a}
  {
    s3 := Apply(s, BumpEpoch(a));
    s4 := Apply(s3, EvictCatalog(a));
    t := Apply(s4, Release(a));
    assert t.actors == s.actors - {a};
  }

  /** Uninterrupted, the steps of one mutation compute exactly the locked operation. */
  lemma StepsOfAMutation(s: System, a: Actor, p: Provider, mutation: Mutation, present: bool) returns (t: System)
    requires s.lock == None && a !in s.actors
    ensures Runs(s, [LockForMutation(a, p, mutation, present), WriteRecord(a), BumpEpoch(a), EvictCatalog(a), Release(a)], t)
    ensures t.core == Mutated(s.core, p, mutation, present) && t.lock == None && t.actors == s.actors
  {
    hide Moves, Apply, Evicted, Recorded, Runs;
    var s1, s2 := MutationFile(s, a, p, mutation, present);
    var s3, s4, u := MutationEnds(s2, a, p, mutation, present);
    t := u;
    PathIsRun([s, s1, s2, s3, s4, t],
              [LockForMutation(a, p, mutation, present), WriteRecord(a), BumpEpoch(a), EvictCatalog(a), Release(a)]);
  }

  // ---------------------------------------------------------------- invariant

  /** The lock holder has written the provider's record but not yet advanced its epoch. */
  ghost predicate Unannounced(s: System, p: Provider) {
    && s.lock.Some? && s.lock.value in s.actors
    && s.actors[s.lock.value].FileWritten? && s.actors[s.lock.value].provider == p
  }

  /** The lock holder is between changing the provider's record and evicting its catalog. */
  ghost predicate Changing(s: System, p: Provider) {
    && s.lock.Some? && s.lock.value in s.actors
    && (s.actors[s.lock.value].FileWritten? || s.actors[s.lock.value].Bumped?)
    && s.actors[s.lock.value].provider == p
  }

  ghost predicate PcInv(s: System, pc: Pc) {
    match pc
    case Fetching(p, epoch) => epoch.value <= EpochOf(s.core, p).value
    case Requested(p, epoch, sent) => Fresh(s, p, epoch) ==> sent == RecordOf(s.core, p)
    case Admitting(p, epoch, sent) => Fresh(s, p, epoch) ==> sent == RecordOf(s.core, p)
    case Rotating(p, epoch, since, _) => Fresh(s, p, epoch) ==> since == VersionOf(s, p)
    case RotationLocked(p, epoch, since, _) => Fresh(s, p, epoch) ==> since == VersionOf(s, p)
    case Mutating(p, _, _, basis) => basis.Some? ==> basis.value == VersionOf(s, p)
    case Bumped(p, recorded) =>
      && recorded <= EpochOf(s.core, p).value
      && (p in s.core.cache.epochs ==> s.core.cache.epochs[p] < recorded)
    case _ => true
  }

  /** The captured epoch is still in force and no unannounced change to the record is under way. */
  ghost predicate Fresh(s: System, p: Provider, epoch: CredentialEpoch) {
    epoch.value >= EpochOf(s.core, p).value && !Unannounced(s, p)
  }

  /** A captured epoch is never ahead. */
  ghost predicate NotAhead(s: System, pc: Pc) {
    (pc.Fetching? || pc.Requested? || pc.Admitting? || pc.Rotating? || pc.RotationLocked?)
      ==> pc.epoch.value <= EpochOf(s.core, pc.provider).value
  }

  ghost predicate CatalogInv(s: System, p: Provider) {
    && (p in s.core.cache.epochs ==> p in s.fetchedWith)
    && (!Changing(s, p) ==>
          && (p in s.core.cache.epochs ==> s.fetchedWith[p] == RecordOf(s.core, p))
          && (p in s.core.cache.file && p in s.settled ==>
                p in s.core.cache.epochs && s.settled[p] <= s.core.cache.epochs[p]))
  }

  ghost predicate LockInv(s: System) {
    && (forall a <- s.actors :: Holds(s.actors[a]) <==> s.lock == Some(a))
    && (s.lock.Some? ==> s.lock.value in s.actors)
  }

  ghost predicate EpochInv(s: System) {
    && TagsBounded(s.core)
    && (forall p <- s.settled :: s.settled[p] <= EpochOf(s.core, p).value)
  }

  ghost predicate ActorInv(s: System, a: Actor) {
    a in s.actors ==> PcInv(s, s.actors[a]) && NotAhead(s, s.actors[a])
  }

  ghost predicate Inv(s: System) {
    && LockInv(s) && EpochInv(s)
    && (forall a: Actor :: ActorInv(s, a))
    && (forall p :: CatalogInv(s, p))
  }

  /** The steps that touch the shared state while holding the lock. */
  predicate Mutates(step: Step) {
    step.Admit? || step.WriteRecord? || step.BumpEpoch? || step.EvictCatalog?
  }

  lemma MutatingStepKeepsCatalogInv(s: System, step: Step, p: Provider)
    requires Inv(s) && Enabled(s, step) && Mutates(step)
    ensures CatalogInv(Apply(s, step), p)
  {
    hide NotedOf, MethodAfter;
    assert CatalogInv(s, p) && ActorInv(s, step.actor) && s.lock == Some(step.actor);
  }

  lemma OtherStepKeepsCatalogInv(s: System, step: Step, p: Provider)
    requires Inv(s) && Enabled(s, step) && !Mutates(step)
    ensures CatalogInv(Apply(s, step), p)
  {
    var t := Apply(s, step);
    assert CatalogInv(s, p);
    assert t.core.cache == s.core.cache && t.core.records == s.core.records;
    assert Changing(s, p) <==> Changing(t, p);
  }

  /** The actor a step belongs to; a status query belongs to none. */
  function ActorOf(step: Step): Option<Actor> {
    if step.Observe? then None else Some(step.actor)
  }

  lemma ApplyKeepsOwnInv(s: System, step: Step)
    requires Inv(s) && Enabled(s, step) && !step.Observe?
    ensures ActorInv(Apply(s, step), step.actor)
  {
    assert ActorInv(s, step.actor);
  }

  /** What a step may do to provider `q` behind the back of a task that is not taking it. */
  lemma StepOfAnother(s: System, step: Step, b: Actor, q: Provider)
    requires LockInv(s) && Enabled(s, step) && ActorOf(step) != Some(b) && b in s.actors
    ensures
      var t := Apply(s, step);
      && b in t.actors && t.actors[b] == s.actors[b]
      && EpochOf(s.core, q).value <= EpochOf(t.core, q).value
      && (EpochOf(s.core, q).value == EpochOf(t.core, q).value && !Unannounced(t, q) ==>
            && !Unannounced(s, q)
            && RecordOf(t.core, q) == RecordOf(s.core, q) && VersionOf(t, q) == VersionOf(s, q))
      && (s.lock == Some(b) ==> VersionOf(t, q) == VersionOf(s, q) && t.core.cache == s.core.cache)
  {
    match step {
      case WriteRecord(a) => assert s.lock == Some(a);
      case FailRecord(a) => assert s.lock == Some(a);
      case BumpEpoch(a) => assert s.lock == Some(a);
      case EvictCatalog(a) => assert s.lock == Some(a);
      case Release(a) => assert s.lock == Some(a);
      case CheckRotation(a) => assert s.lock == Some(a);
      case Admit(a, _) => assert s.lock == Some(a);
      case _ =>
    }
  }

  lemma ApplyKeepsOthersInv(s: System, step: Step, b: Actor)
    requires Inv(s) && Enabled(s, step) && ActorOf(step) != Some(b)
    ensures ActorInv(Apply(s, step), b)
  {
    assert ActorInv(s, b);
    if b in s.actors && !s.actors[b].Releasing? {
      StepOfAnother(s, step, b, s.actors[b].provider);
    }
  }

  lemma ApplyKeepsLockInv(s: System, step: Step)
    requires LockInv(s) && Enabled(s, step)
    ensures LockInv(Apply(s, step))
  {
  }

  lemma CacheStepKeepsEpochInv(s: System, step: Step)
    requires Inv(s) && Enabled(s, step) && (step.Admit? || step.EvictCatalog?)
    ensures EpochInv(Apply(s, step))
  {
    assert ActorInv(s, step.actor);
  }

  lemma OtherStepKeepsEpochInv(s: System, step: Step)
    requires EpochInv(s) && Enabled(s, step) && !step.Admit? && !step.EvictCatalog?
    ensures EpochInv(Apply(s, step))
  {
  }

  lemma ApplyKeepsEpochInv(s: System, step: Step)
    requires Inv(s) && Enabled(s, step)
    ensures EpochInv(Apply(s, step))
  {
    hide Apply, TagsBounded;
    if step.Admit? || step.EvictCatalog? {
      CacheStepKeepsEpochInv(s, step);
    } else {
      OtherStepKeepsEpochInv(s, step);
    }
  }

  lemma ApplyKeepsAllActorInv(s: System, step: Step)
    requires Inv(s) && Enabled(s, step)
    ensures forall a: Actor :: ActorInv(Apply(s, step), a)
  {
    forall a: Actor ensures ActorInv(Apply(s, step), a) {
      if ActorOf(step) == Some(a) {
        ApplyKeepsOwnInv(s, step);
      } else {
        ApplyKeepsOthersInv(s, step, a);
      }
    }
  }

  lemma ApplyKeepsInv(s: System, step: Step)
    requires Inv(s) && Enabled(s, step)
    ensures Inv(Apply(s, step))
  {
    ApplyKeepsLockInv(s, step);
    ApplyKeepsEpochInv(s, step);
    ApplyKeepsAllActorInv(s, step);
    forall p ensures CatalogInv(Apply(s, step), p) {
      if Mutates(step) {
        MutatingStepKeepsCatalogInv(s, step, p);
      } else {
        OtherStepKeepsCatalogInv(s, step, p);
      }
    }
  }

  lemma {:induction false} RunKeepsInv(s: System, steps: seq<Step>, t: System)
    requires Inv(s) && Runs(s, steps, t)
    ensures Inv(t)
    decreases steps
  {
    if steps != [] {
      ApplyKeepsInv(s, steps[0]);
      RunKeepsInv(Apply(s, steps[0]), steps[1..], t);
    }
  }

  lemma ReachableInv(s: System, steps: seq<Step>, t: System)
    requires Initial(s) && Runs(s, steps, t)
    ensures Inv(t)
  {
    hide Runs;
    RunKeepsInv(s, steps, t);
  }

  // ---------------------------------------------------------------- results over all runs

  /**
   Whenever nobody holds the credential lock, every admitted catalog that is still cached was fetched
   with the very record now stored, and carries a tag no older than the last locked mutation; a catalog
   left over from startup is cached only while its provider has never been mutated.
   */
  lemma CachedCatalogsMatchStoredRecords(s: System, steps: seq<Step>, t: System)
    requires Initial(s) && Runs(s, steps, t) && t.lock == None
    ensures forall p <- t.core.cache.epochs ::
              p in t.fetchedWith && t.fetchedWith[p] == RecordOf(t.core, p)
    ensures forall p <- t.core.cache.file | p in t.settled ::
              p in t.core.cache.epochs && t.settled[p] <= t.core.cache.epochs[p] <= EpochOf(t.core, p).value
  {
    RunKeepsInv(s, steps, t);
    forall p ensures !Changing(t, p) && CatalogInv(t, p) {}
    forall p | p in t.core.cache.epochs ensures p in t.fetchedWith && t.fetchedWith[p] == RecordOf(t.core, p) {
      assert CatalogInv(t, p);
    }
    forall p | p in t.core.cache.file && p in t.settled
      ensures p in t.core.cache.epochs && t.settled[p] <= t.core.cache.epochs[p] <= EpochOf(t.core, p).value
    {
      assert CatalogInv(t, p);
    }
  }

  /** A catalog passes the admission check only if its request carried the record stored at that moment. */
  lemma AdmissionChecksTheStoredRecord(s: System, steps: seq<Step>, t: System, a: Actor)
    requires Initial(s) && Runs(s, steps, t)
    requires a in t.actors && t.actors[a].Admitting?
    ensures
      var Admitting(provider, epoch, sent) := t.actors[a];
      Current(t.core, provider, epoch) ==> sent == RecordOf(t.core, provider)
  {
    RunKeepsInv(s, steps, t);
    assert ActorInv(t, a);
  }

  /**
   A rotation that gets past its check writes only if the record has been neither written nor removed
   since its epoch was captured, wherever in another mutation the capture happened to fall.
   */
  lemma RotationOverwritesNothingNewer(s: System, steps: seq<Step>, t: System, a: Actor)
    requires Initial(s) && Runs(s, steps, t)
    requires a in t.actors && t.actors[a].Mutating? && t.actors[a].basis.Some?
    ensures t.actors[a].basis.value == VersionOf(t, t.actors[a].provider)
  {
    RunKeepsInv(s, steps, t);
    assert ActorInv(t, a);
  }

  /** The authentication states are what mutations and status queries have said. */
  ghost predicate NotedInv(s: System, p: Provider) {
    if p in s.core.states
    then s.core.states[p] == AuthState(NotedOf(s, p).authenticated, NotedOf(s, p).credentialMethod, NotedOf(s, p).count)
    else NotedOf(s, p) == Noted(0, false, None)
  }

  predicate HasCaptured(pc: Pc) {
    pc.Fetching? || pc.Requested? || pc.Admitting? || pc.Rotating? || pc.RotationLocked?
  }

  ghost predicate CapturedInv(s: System, a: Actor) {
    a in s.actors && HasCaptured(s.actors[a]) ==>
      a in s.captured && s.actors[a].epoch == CredentialEpoch(s.captured[a].count, s.captured[a].authenticated)
  }

  lemma StepKeepsNoted(s: System, step: Step, p: Provider)
    requires NotedInv(s, p) && Enabled(s, step)
    ensures NotedInv(Apply(s, step), p)
  {
  }

  lemma StepKeepsCaptured(s: System, step: Step, a: Actor)
    requires CapturedInv(s, a) && Enabled(s, step) && forall p :: NotedInv(s, p)
    ensures CapturedInv(Apply(s, step), a)
  {
    if step.BeginFetch? || step.BeginRotation? {
      assert NotedInv(s, step.provider);
    }
  }

  lemma {:induction false} RunKeepsNoted(s: System, steps: seq<Step>, t: System)
    requires (forall p :: NotedInv(s, p)) && (forall a: Actor :: CapturedInv(s, a)) && Runs(s, steps, t)
    ensures (forall p :: NotedInv(t, p)) && (forall a: Actor :: CapturedInv(t, a))
    decreases steps
  {
    hide NotedInv, CapturedInv, Enabled, Apply;
    if steps != [] {
      var next := Apply(s, steps[0]);
      forall p ensures NotedInv(next, p) {
        StepKeepsNoted(s, steps[0], p);
      }
      forall a: Actor ensures CapturedInv(next, a) {
        StepKeepsCaptured(s, steps[0], a);
      }
      RunKeepsNoted(next, steps[1..], t);
    }
  }

  lemma ReachableNoted(s: System, steps: seq<Step>, t: System)
    requires Initial(s) && Runs(s, steps, t)
    ensures (forall p :: NotedInv(t, p)) && (forall a: Actor :: CapturedInv(t, a))
  {
    hide Runs;
    forall p ensures NotedInv(s, p) {
      assert EpochOf(s.core, p).value == 0;
    }
    RunKeepsNoted(s, steps, t);
  }

  /**
   In every run the state of a provider is what the last mutation or status query said: whether it is
   authenticated, by the method of the record last stored, and how many of them there were.
   */
  lemma StatesAreWhatWasNoted(s: System, steps: seq<Step>, t: System, p: Provider)
    requires Initial(s) && Runs(s, steps, t)
    ensures p in t.core.states ==>
              t.core.states[p] == AuthState(NotedOf(t, p).authenticated, NotedOf(t, p).credentialMethod, NotedOf(t, p).count)
    ensures p !in t.core.states ==> NotedOf(t, p) == Noted(0, false, None)
  {
    ReachableNoted(s, steps, t);
    assert NotedInv(t, p);
  }

  /**
   A rotation passes its check, and then stores its record, exactly if no mutation and no status query of its
   provider came between its capture and the check; otherwise nothing changes.
   */
  lemma RotationPassesIff(s: System, steps: seq<Step>, t: System, a: Actor)
    requires Initial(s) && Runs(s, steps, t)
    requires a in t.actors && t.actors[a].RotationLocked?
    ensures a in t.captured
    ensures
      var RotationLocked(p, _, since, record) := t.actors[a];
      var u := Apply(t, CheckRotation(a));
      && u.core == t.core
      && (if NotedOf(t, p).count == t.captured[a].count
          then
            && u.actors[a] == Mutating(p, Save(record), true, Some(since))
            && Apply(u, WriteRecord(a)).core.records == t.core.records[p := record]
          else u.actors[a] == Releasing)
  {
    ReachableNoted(s, steps, t);
    assert CapturedInv(t, a) && NotedInv(t, t.actors[a].provider);
  }

  /**
   A fetched catalog is admitted, as it is and for its provider only, exactly if the provider had credentials
   when the fetch began and no mutation and no status query came since; otherwise nothing changes.
   */
  lemma AdmissionPassesIff(s: System, steps: seq<Step>, t: System, a: Actor, catalog: Cache.Catalog)
    requires Initial(s) && Runs(s, steps, t)
    requires a in t.actors && t.actors[a].Admitting?
    ensures a in t.captured
    ensures
      var p, u := t.actors[a].provider, Apply(t, Admit(a, catalog));
      if NotedOf(t, p).count == t.captured[a].count && t.captured[a].authenticated
      then
        && u.core.cache.file == t.core.cache.file[p := catalog]
        && u.core.cache.epochs == t.core.cache.epochs[p := NotedOf(t, p).count]
        && u.core.records == t.core.records && u.core.states == t.core.states
      else u.core == t.core
  {
    ReachableNoted(s, steps, t);
    assert CapturedInv(t, a) && NotedInv(t, t.actors[a].provider);
  }

  /** When a mutation evicts, no cached tag can exceed its epoch: the guard in `stage_remove` never fires. */
  lemma EvictionGuardNeverFires(s: System, steps: seq<Step>, t: System, a: Actor)
    requires Initial(s) && Runs(s, steps, t)
    requires a in t.actors && t.actors[a].Bumped?
    ensures
      var Bumped(provider, recorded) := t.actors[a];
      && (Cache.Removable(t.core.cache, provider, recorded) <==> provider in t.core.cache.file)
      && provider !in Apply(t, EvictCatalog(a)).core.cache.file
  {
    hide Runs, Initial, NotedOf, MethodAfter, CatalogInv, LockInv, EpochInv, Fresh;
    ReachableInv(s, steps, t);
    assert ActorInv(t, a);
  }

  /** The lock holder has advanced the provider's epoch and is about to evict its catalog. */
  ghost predicate Evicting(s: System, p: Provider) {
    && s.lock.Some? && s.lock.value in s.actors
    && s.actors[s.lock.value].Bumped? && s.actors[s.lock.value].provider == p
  }

  ghost predicate TagInv(s: System, p: Provider) {
    p in s.core.cache.epochs ==>
      s.core.cache.epochs[p] + LookupOr(s.observed, p, 0) + (if Evicting(s, p) then 1 else 0) == EpochOf(s.core, p).value
  }

  lemma MutatingStepKeepsTagInv(s: System, step: Step, p: Provider)
    requires Inv(s) && TagInv(s, p) && Enabled(s, step) && Mutates(step)
    ensures TagInv(Apply(s, step), p)
  {
    assert s.lock == Some(step.actor) && ActorInv(s, step.actor);
  }

  lemma OtherStepKeepsTagInv(s: System, step: Step, p: Provider)
    requires LockInv(s) && TagInv(s, p) && Enabled(s, step) && !Mutates(step)
    ensures TagInv(Apply(s, step), p)
  {
    var t := Apply(s, step);
    assert t.core.cache == s.core.cache;
    assert Evicting(s, p) <==> Evicting(t, p);
  }

  lemma {:induction false} RunKeepsTagInv(s: System, steps: seq<Step>, t: System, p: Provider)
    requires Inv(s) && TagInv(s, p) && Runs(s, steps, t)
    ensures TagInv(t, p)
    decreases steps
  {
    hide Inv, TagInv, Apply;
    if steps != [] {
      ApplyKeepsInv(s, steps[0]);
      if Mutates(steps[0]) {
        MutatingStepKeepsTagInv(s, steps[0], p);
      } else {
        assert LockInv(s) by { InvLocks(s); }
        OtherStepKeepsTagInv(s, steps[0], p);
      }
      RunKeepsTagInv(Apply(s, steps[0]), steps[1..], t, p);
    }
  }

  lemma InvLocks(s: System)
    requires Inv(s)
    ensures LockInv(s)
  {
  }

  /**
   Whenever nobody holds the credential lock, the tag of an admitted catalog lags behind its provider's
   epoch by exactly the status queries since the admission: the two are equal iff there were none.
   */
  lemma TagLagsByStatusQueries(s: System, steps: seq<Step>, t: System, p: Provider)
    requires Initial(s) && Runs(s, steps, t) && t.lock == None && p in t.core.cache.epochs
    ensures t.core.cache.epochs[p] + LookupOr(t.observed, p, 0) == EpochOf(t.core, p).value
    ensures t.core.cache.epochs[p] == EpochOf(t.core, p).value <==> LookupOr(t.observed, p, 0) == 0
  {
    RunKeepsTagInv(s, steps, t, p);
  }

  /**
   A tag may lag behind the epoch of a cached catalog, because status queries advance the epoch outside
   the lock and evict nothing.
   */
  lemma TagMayLagBehindEpoch(catalog: Cache.Catalog) returns (s: System, steps: seq<Step>, t: System)
    ensures Initial(s) && Runs(s, steps, t) && t.lock == None
    ensures "p" in t.core.cache.epochs && t.core.cache.epochs["p"] < EpochOf(t.core, "p").value
  {
    var record := Record(None, "k");
    s := System(Core(map["p" := record], map["p" := AuthState(true, None, 0)], Cache.Store(map[], map[], 0)),
                None, map[], map[], map[], map[], map[], map["p" := Noted(0, true, None)], map[]);
    var s1, s2, s3 := FetchReachesLock(s, record);
    hide Runs, Moves;
    var s4, s5, u := ObservedAfterAdmission(s3, catalog, record);
    t := u;
    steps := [BeginFetch(0, "p"), SendRequest(0), LockForAdmission(0), Admit(0, catalog), Release(0), Observe("p", true, Preserve)];
    PathIsRun([s, s1, s2, s3, s4, s5, t], steps);
  }

  lemma FetchReachesLock(s: System, record: Record) returns (s1: System, s2: System, s3: System)
    requires s.lock == None && s.actors == map[]
    requires RecordOf(s.core, "p") == Some(record) && EpochOf(s.core, "p") == CredentialEpoch(0, true)
    ensures Moves(s, BeginFetch(0, "p"), s1) && Moves(s1, SendRequest(0), s2) && Moves(s2, LockForAdmission(0), s3)
    ensures s3.core == s.core && 0 in s3.actors && s3.actors[0] == Admitting("p", CredentialEpoch(0, true), Some(record))
  {
    s1 := Apply(s, BeginFetch(0, "p"));
    s2 := Apply(s1, SendRequest(0));
    s3 := Apply(s2, LockForAdmission(0));
  }

  lemma ObservedAfterAdmission(s: System, catalog: Cache.Catalog, record: Record) returns (s1: System, s2: System, t: System)
    requires 0 in s.actors && s.actors[0] == Admitting("p", CredentialEpoch(0, true), Some(record))
    requires "p" in s.core.states && s.core.states["p"].epoch == 0
    ensures Moves(s, Admit(0, catalog), s1) && Moves(s1, Release(0), s2) && Moves(s2, Observe("p", true, Preserve), t)
    ensures t.lock == None && "p" in t.core.cache.epochs && t.core.cache.epochs["p"] < EpochOf(t.core, "p").value
  {
    s1 := Apply(s, Admit(0, catalog));
    assert s1.core.cache.epochs["p"] == 0;
    s2 := Apply(s1, Release(0));
    t := Apply(s2, Observe("p", true, Preserve));
    assert EpochOf(t.core, "p").value == 1;
  }
}
