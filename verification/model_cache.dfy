/**
 The provider model-catalog cache: in-memory snapshots guarded by one mutex, and a lock-free
 write/recheck loop that brings `models.json` up to date with them.

 Part one gives the critical sections as functions on values, part two the store as an object whose
 methods compute those functions, and part three the interleaving of any number of persisters.
 */
module ModelCache {
  import opened Wrappers

  type Provider = string

  datatype CatalogSource = Remote | Bundled

  datatype Catalog = Catalog(models: seq<string>, source: CatalogSource, fetchedAt: nat)

  type Catalogs = map<Provider, Catalog>

  const VERSION: nat := 3

  /** What the cache file can hold. */
  datatype Disk = Missing | Malformed | Written(version: nat, providers: Catalogs)

  /** Missing, malformed and incompatible files read as an empty cache. */
  function ReadFile(disk: Disk): Catalogs {
    match disk
    case Written(version, providers) => if version == VERSION then providers else map[]
    case _ => map[]
  }

  // ---------------------------------------------------------------- critical sections

  datatype Store = Store(file: Catalogs, epochs: map<Provider, nat>, generation: nat)

  datatype PendingWrite = PendingWrite(generation: nat, file: Catalogs)

  function Snapshot(s: Store): PendingWrite {
    PendingWrite(s.generation, s.file)
  }

  function AfterSave(s: Store, provider: Provider, catalog: Catalog, epoch: nat): Store {
    Store(s.file[provider := catalog], s.epochs[provider := epoch], s.generation + 1)
  }

  /** Whether `stage_remove` changes anything: the catalog is cached and not newer than `epoch`. */
  predicate Removable(s: Store, provider: Provider, epoch: nat) {
    provider in s.file && (provider in s.epochs ==> s.epochs[provider] <= epoch)
  }

  function AfterRemove(s: Store, provider: Provider, epoch: nat): Store {
    if Removable(s, provider, epoch)
    then Store(s.file - {provider}, s.epochs - {provider}, s.generation + 1)
    else s
  }

  /** A staging concerns one provider, and leaves the catalogs and tags of all others as they are. */
  lemma StagingIsLocal(s: Store, provider: Provider, catalog: Catalog, epoch: nat, other: Provider)
    ensures
      var t := AfterSave(s, provider, catalog, epoch);
      && t.file.Keys == s.file.Keys + {provider} && t.file[provider] == catalog && t.epochs[provider] == epoch
      && (other != provider ==> Lookup(t.file, other) == Lookup(s.file, other) && Lookup(t.epochs, other) == Lookup(s.epochs, other))
    ensures
      var t := AfterRemove(s, provider, epoch);
      && (provider in t.file <==> provider in s.file && provider in s.epochs && s.epochs[provider] > epoch)
      && (provider in t.file ==> t == s) && (provider !in s.file ==> t == s)
      && (provider in s.file && provider !in t.file ==> provider !in t.epochs && t.generation == s.generation + 1)
      && (other != provider ==> Lookup(t.file, other) == Lookup(s.file, other) && Lookup(t.epochs, other) == Lookup(s.epochs, other))
  {
  }

  /** A file is read as the catalogs it was written with, if this build knows its version. */
  lemma WhatIsRead(version: nat, providers: Catalogs)
    ensures ReadFile(Written(version, providers)) == (if version == 3 then providers else map[])
    ensures ReadFile(Missing) == ReadFile(Malformed) == map[]
  {
  }

  /** One staging operation of some other task. */
  datatype Staging =
    | Saving(provider: Provider, catalog: Catalog, epoch: nat)
    | Removing(provider: Provider, epoch: nat)

  function AfterStaging(s: Store, staging: Staging): Store {
    match staging
    case Saving(provider, catalog, epoch) => AfterSave(s, provider, catalog, epoch)
    case Removing(provider, epoch) => AfterRemove(s, provider, epoch)
  }

  function StageAll(s: Store, stagings: seq<Staging>): Store
    decreases stagings
  {
    if stagings == [] then s else StageAll(AfterStaging(s, stagings[0]), stagings[1..])
  }

  function StageRounds(s: Store, rounds: seq<seq<Staging>>): Store
    decreases rounds
  {
    if rounds == [] then s else StageRounds(StageAll(s, rounds[0]), rounds[1..])
  }

  /** A snapshot is never ahead of the store, and one of the same generation has the same catalogs. */
  ghost predicate SnapshotOf(write: PendingWrite, s: Store) {
    && write.generation <= s.generation
    && (write.generation == s.generation ==> write.file == s.file)
  }

  /** The generation counter identifies the staged catalogs: equal counters mean nothing was staged. */
  lemma {:induction false} StageAllSeparatesGenerations(s: Store, stagings: seq<Staging>)
    ensures s.generation <= StageAll(s, stagings).generation
    ensures s.generation == StageAll(s, stagings).generation ==> StageAll(s, stagings) == s
    decreases stagings
  {
    if stagings != [] {
      StageAllSeparatesGenerations(AfterStaging(s, stagings[0]), stagings[1..]);
    }
  }

  lemma {:induction false} StageRoundsSnoc(s: Store, rounds: seq<seq<Staging>>, last: seq<Staging>)
    ensures StageRounds(s, rounds + [last]) == StageAll(StageRounds(s, rounds), last)
    decreases rounds
  {
    if rounds == [] {
      assert rounds + [last] == [last];
    } else {
      assert (rounds + [last])[1..] == rounds[1..] + [last];
      StageRoundsSnoc(StageAll(s, rounds[0]), rounds[1..], last);
    }
  }

  // ---------------------------------------------------------------- the store object

  class ModelCatalogStore {
    var file: Catalogs
    var providerEpochs: map<Provider, nat>
    var generation: nat
    var disk: Disk

    ghost function View(): Store
      reads this
    {
      Store(file, providerEpochs, generation)
    }

    /** A restart would read back exactly the catalogs held in memory. */
    ghost predicate InSync()
      reads this
    {
      ReadFile(disk) == file
    }

    constructor (found: Disk)
      ensures disk == found && InSync()
      ensures View() == Store(ReadFile(found), map[], 0)
    {
      disk := found;
      file := ReadFile(found);
      providerEpochs := map[];
      generation := 0;
    }

    method StageSaveWithSource(provider: Provider, catalog: Catalog, credentialEpoch: nat)
      returns (write: PendingWrite)
      modifies this`file, this`providerEpochs, this`generation
      ensures View() == AfterSave(old(View()), provider, catalog, credentialEpoch)
      ensures write == Snapshot(View())
    {
      file := file[provider := catalog];
      providerEpochs := providerEpochs[provider := credentialEpoch];
      generation := generation + 1;
      write := PendingWrite(generation, file);
    }

    method StageRemove(provider: Provider, credentialEpoch: nat) returns (write: Option<PendingWrite>)
      modifies this`file, this`providerEpochs, this`generation
      ensures View() == AfterRemove(old(View()), provider, credentialEpoch)
      ensures write == if Removable(old(View()), provider, credentialEpoch) then Some(Snapshot(View())) else None
    {
      if provider in providerEpochs && providerEpochs[provider] > credentialEpoch {
        return None;
      }
      if provider !in file {
        return None;
      }
      file := file - {provider};
      providerEpochs := providerEpochs - {provider};
      generation := generation + 1;
      write := Some(PendingWrite(generation, file));
    }

    method WriteFile(contents: Catalogs)
      modifies this`disk
      ensures disk == Written(VERSION, contents)
    {
      disk := Written(VERSION, contents);
    }

    /** Stagings by other tasks between two steps of a persister. */
    method Interfere(stagings: seq<Staging>)
      modifies this`file, this`providerEpochs, this`generation
      ensures View() == StageAll(old(View()), stagings)
    {
      var i := 0;
      while i < |stagings|
        invariant 0 <= i <= |stagings|
        invariant StageAll(old(View()), stagings) == StageAll(View(), stagings[i..])
      {
        match stagings[i] {
          case Saving(provider, catalog, epoch) => var _ := StageSaveWithSource(provider, catalog, epoch);
          case Removing(provider, epoch) => var _ := StageRemove(provider, epoch);
        }
        i := i + 1;
      }
    }

    /**
     The write/recheck loop. `rounds[k]` is what other tasks stage between the k-th write and its
     recheck; nothing more is staged once the rounds are used up. `works` says which writes succeed. A
     failing write ends the loop at once; otherwise it ends with the file in step with memory, and after
     the last interference it writes at most twice.
     */
    method Persist(pending: PendingWrite, rounds: seq<seq<Staging>>, works: nat -> bool) returns (ok: bool, writes: nat)
      requires SnapshotOf(pending, View())
      modifies this
      ensures forall k | 0 <= k < writes :: works(k)
      ensures ok ==> InSync() && 1 <= writes
      ensures !ok ==> !works(writes)
      ensures writes == 0 ==> disk == old(disk)
      ensures View() == StageRounds(old(View()), rounds[..if writes < |rounds| then writes else |rounds|])
      ensures writes <= |rounds| + if pending.generation == old(generation) then 1 else 2
    {
      var write := pending;
      writes := 0;
      ok := false;
      while !ok
        invariant !ok ==> SnapshotOf(write, View())
        invariant ok ==> InSync() && 1 <= writes
        invariant forall k | 0 <= k < writes :: works(k)
        invariant View() == StageRounds(old(View()), rounds[..if writes < |rounds| then writes else |rounds|])
        invariant writes == 0 ==> write == pending && View() == old(View()) && disk == old(disk)
        invariant !ok && writes > 0 ==> write.generation == generation
        invariant writes <= |rounds| + if pending.generation == old(generation) then 1 else 2
        invariant !ok ==> writes <= |rounds| + if pending.generation == old(generation) then 0 else 1
        decreases !ok, |rounds| + 2 - writes
      {
        if !works(writes) {
          return;
        }
        WriteFile(write.file);
        ghost var before := View();
        ghost var k := if writes < |rounds| then writes else |rounds|;
        if writes < |rounds| {
          Interfere(rounds[writes]);
          StageAllSeparatesGenerations(before, rounds[writes]);
          StageRoundsSnoc(old(View()), rounds[..writes], rounds[writes]);
          assert rounds[..writes] + [rounds[writes]] == rounds[..writes + 1];
        }
        writes := writes + 1;
        if generation == write.generation {
          ok := true;
        } else {
          write := PendingWrite(generation, file);
        }
      }
    }
  }

  // ---------------------------------------------------------------- concurrent persisters

  /** A persister is about to write, or has written and is about to recheck the generation. */
  datatype Persister = Writing(write: PendingWrite) | Checking(generation: nat)

  /**
   `written` is the generation that the file was last written with, and `catalogs[g]` what generation `g`
   held. `failed` says that a write failed while the file was behind, and that no write has brought the
   file up to date since.
   */
  datatype System = System(
    store: Store, disk: Disk, persisters: map<nat, Persister>, written: nat, catalogs: seq<Catalogs>, failed: bool)

  datatype Step =
    | Staged(id: nat, staging: Staging)
    | Write(id: nat)
    | FailWrite(id: nat)
    | Recheck(id: nat)

  predicate Enabled(s: System, step: Step) {
    match step
    case Staged(id, _) => id !in s.persisters
    case Write(id) => id in s.persisters && s.persisters[id].Writing?
    case FailWrite(id) => id in s.persisters && s.persisters[id].Writing?
    case Recheck(id) => id in s.persisters && s.persisters[id].Checking?
  }

  function Apply(s: System, step: Step): System
    requires Enabled(s, step)
  {
    match step
    case Staged(id, staging) =>
      var store := AfterStaging(s.store, staging);
      // A removal that changed nothing hands out no pending write.
      if store == s.store then s
      else s.(store := store, persisters := s.persisters[id := Writing(Snapshot(store))], catalogs := s.catalogs + [store.file])
    case Write(id) =>
      var write := s.persisters[id].write;
      s.(disk := Written(VERSION, write.file),
         persisters := s.persisters[id := Checking(write.generation)],
         written := write.generation,
         failed := s.failed && write.generation != s.store.generation)
    case FailWrite(id) =>
      s.(persisters := s.persisters - {id}, failed := s.failed || s.written != s.store.generation)
    case Recheck(id) =>
      if s.persisters[id].generation == s.store.generation
      then s.(persisters := s.persisters - {id})
      else s.(persisters := s.persisters[id := Writing(Snapshot(s.store))])
  }

  ghost predicate Runs(s: System, steps: seq<Step>, t: System)
    decreases steps
  {
    if steps == [] then s == t
    else Enabled(s, steps[0]) && Runs(Apply(s, steps[0]), steps[1..], t)
  }

  function Initial(found: Disk): System {
    System(Store(ReadFile(found), map[], 0), found, map[], 0, [ReadFile(found)], false)
  }

  /** The persister will still write, because it has not yet or because it will find its write stale. */
  ghost predicate WillWrite(s: System, id: nat) {
    id in s.persisters && (s.persisters[id].Writing? || s.persisters[id].generation < s.store.generation)
  }

  /** Every snapshot, and the file, is what its generation held. */
  ghost predicate HistoryInv(s: System) {
    && |s.catalogs| == s.store.generation + 1 && s.catalogs[s.store.generation] == s.store.file
    && s.written <= s.store.generation && ReadFile(s.disk) == s.catalogs[s.written]
    && forall id <- s.persisters ::
         match s.persisters[id]
         case Writing(write) => write.generation <= s.store.generation && write.file == s.catalogs[write.generation]
         case Checking(generation) => generation <= s.store.generation
  }

  ghost predicate Inv(s: System) {
    && HistoryInv(s)
    && (s.failed ==> s.written != s.store.generation)
    && (s.written != s.store.generation ==> s.failed || exists id :: WillWrite(s, id))
  }

  lemma ApplyKeepsHistory(s: System, step: Step)
    requires HistoryInv(s) && Enabled(s, step)
    ensures HistoryInv(Apply(s, step))
  {
  }

  lemma ApplyKeepsInv(s: System, step: Step)
    requires Inv(s) && Enabled(s, step)
    ensures Inv(Apply(s, step))
  {
    var t := Apply(s, step);
    ApplyKeepsHistory(s, step);
    match step {
      case Staged(id, staging) =>
        if t != s {
          assert WillWrite(t, id);
        }
      case Write(id) =>
        if t.written != t.store.generation {
          assert WillWrite(t, id);
        }
      case FailWrite(id) =>
      case Recheck(id) =>
        if t.written != t.store.generation && !t.failed {
          var other :| WillWrite(s, other);
          assert WillWrite(t, other);
        }
    }
  }

  lemma {:induction false} RunKeepsInv(s: System, steps: seq<Step>, t: System)
    requires Inv(s) && Runs(s, steps, t)
    ensures Inv(t)
    decreases steps
  {
    if steps != [] {
      ApplyKeepsInv(s, steps[0]);
      RunKeepsInv(Apply(s, steps[0]), steps[1..], t);
    }
  }

  /** At any moment the file holds what the generation last written held, in every run. */
  lemma FileHoldsItsGeneration(found: Disk, steps: seq<Step>, t: System)
    requires Runs(Initial(found), steps, t)
    ensures t.written < |t.catalogs| == t.store.generation + 1
    ensures ReadFile(t.disk) == t.catalogs[t.written]
    ensures t.catalogs[t.store.generation] == t.store.file
  {
    RunKeepsInv(Initial(found), steps, t);
  }

  /**
   However stagings, writes and rechecks of any number of persisters interleave: once no persister is
   active the current generation is in the file, unless a write failed while the file was behind and none
   made up for it. That is exactly when the generation in the file is an older one.
   */
  lemma QuiescentFileHoldsTheCatalogs(found: Disk, steps: seq<Step>, t: System)
    requires Runs(Initial(found), steps, t) && t.persisters == map[]
    ensures t.written == t.store.generation <==> !t.failed
    ensures !t.failed ==> ReadFile(t.disk) == t.store.file
  {
    RunKeepsInv(Initial(found), steps, t);
  }

  /** A write that fails although the file is current does no harm. */
  lemma SupersededFailureIsHarmless(found: Disk, steps: seq<Step>, s: System, id: nat)
    requires Runs(Initial(found), steps, s) && Enabled(s, FailWrite(id)) && s.written == s.store.generation
    ensures !Apply(s, FailWrite(id)).failed && ReadFile(Apply(s, FailWrite(id)).disk) == s.store.file
  {
    RunKeepsInv(Initial(found), steps, s);
  }

  /** Without failing writes the previous theorem has no exception. */
  lemma {:induction false} NothingFailedWithoutFailWrite(s: System, steps: seq<Step>, t: System)
    requires Runs(s, steps, t) && !s.failed
    requires forall step <- steps :: !step.FailWrite?
    ensures !t.failed
    decreases steps
  {
    if steps != [] {
      NothingFailedWithoutFailWrite(Apply(s, steps[0]), steps[1..], t);
    }
  }

  /** A failed write with nobody left to repeat it does leave the file behind memory. */
  lemma FailedWriteLeavesFileBehind(catalog: Catalog) returns (steps: seq<Step>, t: System)
    ensures Runs(Initial(Missing), steps, t)
    ensures t.persisters == map[] && t.written < t.store.generation && ReadFile(t.disk) != t.store.file
  {
    var s0 := Initial(Missing);
    var first := Staged(0, Saving("p", catalog, 1));
    var s1 := Apply(s0, first);
    t := Apply(s1, FailWrite(0));
    steps := [first, FailWrite(0)];
    assert steps[1..] == [FailWrite(0)];
    assert steps[1..][1..] == [];
    assert Runs(t, [], t);
    assert Runs(s1, steps[1..], t);
    assert "p" in t.store.file;
  }

  /** How many writes a persister still has to do when nothing is staged any more. */
  function WritesLeft(s: System, id: nat): (left: nat)
    ensures left <= 2
  {
    if id !in s.persisters then 0
    else
      match s.persisters[id]
      case Writing(write) => if write.generation == s.store.generation then 1 else 2
      case Checking(generation) => if generation == s.store.generation then 0 else 1
  }

  function WritesBy(steps: seq<Step>, id: nat): nat {
    if steps == [] then 0
    else (if steps[0] == Write(id) then 1 else 0) + WritesBy(steps[1..], id)
  }

  /** Each write of a persister is one fewer left, and nothing else changes how many are. */
  lemma OneWriteLess(s: System, step: Step, id: nat)
    requires Inv(s) && Enabled(s, step) && (step.Write? || step.Recheck?)
    ensures WritesLeft(Apply(s, step), id) + (if step == Write(id) then 1 else 0) == WritesLeft(s, id) <= 2
  {
  }

  /**
   Once staging stops, the writes a persister does plus the writes it has left is a constant, which is
   at most two.
   */
  lemma {:induction false} AtMostTwoWritesAfterStaging(s: System, steps: seq<Step>, t: System, id: nat)
    requires Inv(s) && Runs(s, steps, t)
    requires forall step <- steps :: step.Write? || step.Recheck?
    ensures WritesBy(steps, id) + WritesLeft(t, id) == WritesLeft(s, id) <= 2
    decreases steps
  {
    hide Inv, Enabled, Apply, WritesLeft;
    if steps != [] {
      ApplyKeepsInv(s, steps[0]);
      OneWriteLess(s, steps[0], id);
      AtMostTwoWritesAfterStaging(Apply(s, steps[0]), steps[1..], t, id);
    }
  }
}
