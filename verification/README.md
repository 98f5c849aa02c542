# Misy core: protocols and text algorithms, modelled and proved

This project models the headless core of Misy (`crates/misy-core`) and proves what its comments, tests and
documentation promise about it: four protocols that are said to be linearized by a lock, an epoch or a
generation counter, and a handful of smaller state machines and byte algorithms.

The same shape returns in every protocol module. The critical sections of the Rust code are functions on
values. A class with the code's own fields has one method per operation, and each method is proved to compute
those functions. A transition system (`Step`, `Enabled`, `Apply`, `Runs`) interleaves the critical sections of
any number of actors, with history variables where a property speaks about the past, and the results quantify
over every run. Loops of the code are loops here, proved against recursive definitions, which the lemmas are
about.

| file | models | main results |
|---|---|---|
| `model_cache.dfy` | the catalog cache, its generations and the write/recheck loop | once no persister is active the file holds the in-memory catalogs |
| `credentials.dfy` | credential records, epochs, catalog admission, optimistic rotation | cached catalogs were fetched with the stored record; a rotation overwrites nothing newer |
| `session_log.dfy` | the lines of a session log and their replay | replay reads up to the first unreadable line and skips what is no envelope |
| `conversation.dfy` | the live conversation, its appends, failures, session switches and compactions | in every run the log replays to the transcript and the checklist |
| `compaction.dfy` | what compaction promises, alone and under interference | without interference the log replays to what the provider is shown; the exact condition with it |
| `progress.dfy` | when a compaction begins, goes on and is installed | every checkpoint and every installed history is smaller than what it replaces |
| `queue.dfy` | the submission queue, its worker, cancellation, shutdown | one worker, no lost wakeup, FIFO events, a cancellation in time prevents the start, shutdown stops everything |
| `questions.dfy` | the question registry and its four competing resolvers | one claim and one resolution per question, and the waiter gets the claimant's outcome |
| `provider_host.dfy` | the start-up race of provider processes against each other and against shutdown | no healthy process is overwritten, none survives shutdown |
| `admission.dfy` | process admission counters, recently finished activities | counters are the live permits; the main agent keeps its share |
| `instructions.dfy` | instruction discovery and the budget shared by all sessions | budget conservation; repeated discovery is silent |
| `redaction.dfy` | the three redaction scans and the size cap | no secret pattern survives, none is made anew, nothing else changes; which announced tokens escape |
| `masking.dfy` | secrets spelled out, and the three passes together | every secret of every spelling lies in a span that is replaced |
| `selector.dfy` | the model selector's printer and parser | round trip exactly for selectable profiles, exact language of the parser |
| `replacement.dfy` | exact text replacement | leftmost matches, exact projected length, exact refusals |
| `paging.dfy` | line spans and pages | unique tiling, pages reassemble the content |
| `wrappers.dfy`, `sums.dfy`, `numerals.dfy` | `Option`, `Result`, map lookup, the sum of a map, decimals | |

## What holds only under a condition

* **Compaction is not atomic with other work.** `compact` looks at the queue, releases the lock and only later
  takes its snapshot and the slot, measures the transcript, logs the checkpoint and installs the result, each
  under a lock of its own (`core/compaction.rs:40-58`, `193-286`), although its documentation says it fails
  while work is active. Transcript, checklist and numbering do not depend on that: they are replayed exactly in
  every run (`Conversation.ReplayRefinesTranscript`). For the active history `Compaction.FinishAgreesIff` gives
  the exact condition, for every run up to the measurement and all work of others behind it that neither fails
  nor switches: with a transcript at least as long as the kept tail, log and live agree iff nothing is appended
  between measuring and installing, the last entries of the measured transcript read like the kept ones, and
  the turn loop counts no retry entries at the install; with a shorter one, iff all of it and all that is
  appended reads like what the retries leave of the kept entries. Agreement is that of what is left once
  counted retries are dropped, and no work of others changes it (`Compaction.AgreementLasts`); the condition at
  the moment of the install is stated beside it, without the retries. Special cases are appends while the
  summary is generated (`Compaction.AppendsDuringCompaction`: each kept entry reads like the one as many
  positions later as there were appends), a resumed session (`Compaction.ResumeDuringCompaction`) and a new one
  (`Compaction.NewSessionDuringCompaction`: never, as long as less is said in it than is left of what was kept).
  `Compaction.InstallAgreesIff` also covers switches between measuring and logging,
  `Compaction.SwitchBeforeInstall` those behind it. Three runs without a failed write show that it happens:
  `Compaction.CompactionRaceSplitsLogFromLive`, `Compaction.RetriesCutTheKeptTail` and
  `Compaction.CompactionSurvivesNewSession`, the latter because a manual compaction is not in the queue and
  `new_session` therefore finds it idle. `Compaction.Disciplined` spells out what rules all of it out: the
  single worker does, for appends during threshold and overflow compaction; everything else is a precondition.
  It need hold only since the last settled state, and a switch of session restores one whatever happened
  before, unless a compaction is under way or retries are counted (`Compaction.SwitchSettles`).
* **Retry entries outlive a switch of session.** A cancelled submission is hidden from the queue while it still
  runs (`core/queue.rs:26-38`), so a session can be switched under a turn loop that counts retry entries, and
  the next drop cuts as many entries of the resumed conversation. Log and live then agree iff it had none
  (`Compaction.RetriesOutliveSwitch`); a switch between the two entries of a retry costs the last one
  (`Conversation.SwitchInsideRetry`).
* **An unreadable line ends the replay.** Reading stops at the first line that is not UTF-8 or cannot be read
  (`core/session.rs:424`), and everything behind it is silently dropped (`SessionLog.UnreadableEndsTheReplay`);
  only readable lines that are no envelope are skipped.
* **A failed write is not repeated.** The file always holds what the generation last written held
  (`ModelCache.FileHoldsItsGeneration`). With no persister active that is the current generation iff no write
  failed while the file was behind, with no later write making up for it
  (`ModelCache.QuiescentFileHoldsTheCatalogs`, and a run in `ModelCache.FailedWriteLeavesFileBehind`).
* **A cached tag lags behind the epoch.** Status queries advance the epoch outside the credential lock and
  evict nothing. The lag is exactly the number of status queries since the admission, so tag and epoch are
  equal iff there were none (`Credentials.TagLagsByStatusQueries`, and a run in
  `Credentials.TagMayLagBehindEpoch`).
* **A poisoned conversation installs compactions it cannot log.** After a failed write appends are skipped
  and report success, so a compaction still replaces the active history (`Conversation.OnlyPoisonSkipsTheLog`).
* **A session switch must not fall into a push.** If it does, the entry is logged in the session that was
  switched to, and misses there whichever of transcript and active history the push had already reached: a
  submission starts with the transcript (`core/agent.rs:104-114`), the turn loop with the active history
  (`core/turn/loop.rs:237-249`). `Conversation.SwitchInsidePush` covers every position, and
  `Conversation.SwitchInsideSetTodos` the checklist.
* **Resuming the attached session must not race with an append.** The file is read before the conversation is
  locked (`core/session_api.rs:108-148`). What is attached agrees with the log iff nothing was appended to that
  file in between; otherwise the numbering falls back by as many records (`Conversation.AppendsInsideResume`).
* **Not every announced bearer token is replaced.** A pass replaces an announced secret as a whole or not at all,
  and it survives iff it is a bearer token whose keyword is the end of another token that is replaced
  (`Redaction.SecretSurvivesIff`, and every text of that shape in `Redaction.SecondTokenSurvives`). The output
  holds no announced token even so, because the replaced one took the keyword with it.
* **A page with limit 0 would name itself as the next page** (`Paging.PageAdvancesIffLimitIsPositive`). The
  formatter allows it; no call reaches it, because arguments are validated first (`tools.rs:341`) against a
  schema with a minimum of 1 (`tools/definitions.rs:109`).
* **A selector round trip needs a selectable profile**: a non-empty provider without `/`, a non-empty model and
  an absent or valid thinking level. `Selector.RoundTrip` is an equivalence.

A comment in `tools/activity.rs:58-59` speaks of a four-process admission limit; the code admits 64, and the
model follows the code.

## Model

| member | source | states |
|---|---|---|
| ModelCache.ModelCatalogStore.constructor | crates/misy-core/src/model_cache.rs:125-143 | a new store holds what the file reads as, missing, malformed and incompatible files reading as empty |
| ModelCache.ModelCatalogStore.StageSaveWithSource | crates/misy-core/src/model_cache.rs:230-257 | staging a catalog replaces it, tags it with the epoch, advances the generation and hands out a snapshot of exactly that state |
| ModelCache.ModelCatalogStore.StageRemove | crates/misy-core/src/model_cache.rs:259-282 | a removal takes effect only for a cached catalog that is not tagged with a newer epoch, and hands out a write exactly then |
| ModelCache.ModelCatalogStore.Persist | crates/misy-core/src/model_cache.rs:284-302 | whatever is staged between its writes and rechecks, the loop ends with the file equal to memory, after at most two writes beyond the last interference, or returns at the first write that fails |
| ModelCache.StageAllSeparatesGenerations | crates/misy-core/src/model_cache.rs:230-282 | equal generations mean that nothing was staged in between: the counter identifies the catalogs |
| ModelCache.StagingIsLocal | crates/misy-core/src/model_cache.rs:230-282 | a staging touches its own provider only: a saved catalog is there with its tag, and one is removed unless its tag is newer |
| ModelCache.WhatIsRead | crates/misy-core/src/model_cache.rs:304-330 | a file reads as what was written with version 3, and any other file as empty |
| ModelCache.ApplyKeepsInv | crates/misy-core/src/model_cache.rs:230-302 | every interleaved step keeps: the file holds what the generation last written held, and if that is an old one some persister will still write or a write failed |
| ModelCache.FileHoldsItsGeneration | crates/misy-core/src/model_cache.rs:284-308 | in every run, at any moment, the file holds exactly what the generation last written held |
| ModelCache.QuiescentFileHoldsTheCatalogs | crates/misy-core/src/model_cache.rs:284-302 | in every run of any number of persisters, once none is active the current generation is in the file iff no write failed while the file was behind without being made up for; the file then holds the in-memory catalogs |
| ModelCache.SupersededFailureIsHarmless | crates/misy-core/src/model_cache.rs:284-302 | a write that fails when the current generation is already in the file leaves nothing behind |
| ModelCache.NothingFailedWithoutFailWrite | crates/misy-core/src/model_cache.rs:284-302 | without failing writes nothing counts as failed, so a quiescent file holds the catalogs |
| ModelCache.FailedWriteLeavesFileBehind | crates/misy-core/src/model_cache.rs:284-302 | a run in which a failed write leaves an older generation in the file with no persister active |
| ModelCache.AtMostTwoWritesAfterStaging | crates/misy-core/src/model_cache.rs:284-302 | once staging stops, writes done plus writes left is constant for each persister, and at most two |
| Credentials.CoreState.constructor | crates/misy-core/src/core/authentication.rs:8-33 | initial epochs are zero and providers are authenticated exactly when a record is stored |
| Credentials.CoreState.CurrentEpoch | crates/misy-core/src/core/authentication.rs:329-344 | the captured epoch with its presence flag, zero and absent for unknown providers |
| Credentials.CoreState.RecordAuthentication | crates/misy-core/src/core/authentication.rs:365-399 | records presence and method, and advances the epoch by one |
| Credentials.CoreState.StoreCredentialsLocked | crates/misy-core/src/core/authentication.rs:454-484 | file, then epoch, then eviction: the whole locked mutation; a record that cannot be saved ends it with nothing changed, the cache file is written on a best-effort basis |
| Credentials.CoreState.StoreCredentialsIfEpoch | crates/misy-core/src/core/authentication.rs:436-452 | the mutation happens exactly when the epoch is still the captured one and the record can be saved; otherwise nothing changes |
| Credentials.CoreState.RemoveCredentials | crates/misy-core/src/core/authentication.rs:486-500 | logout removes the record, advances the epoch and evicts, or changes nothing when the file cannot be written |
| Credentials.CoreState.SaveModelsIfCurrent | crates/misy-core/src/core/cache.rs:100-117 | a catalog is admitted, tagged with the captured epoch, exactly when that epoch is current and had credentials |
| Credentials.MutationEvictsAndAdvances | crates/misy-core/src/core/authentication.rs:454-500 | a mutation leaves nothing cached for its provider, advances its epoch by one and leaves all other providers alone |
| Credentials.StepsOfAMutation | crates/misy-core/src/core/authentication.rs:454-484 | uninterrupted, the interleaved steps of a mutation compute the locked operation |
| Credentials.StepOfAnother | crates/misy-core/src/core/authentication.rs:436-500 | what a step of another actor can do: it raises the epoch, or leaves record and version alone; under the lock it changes no record and no catalog |
| Credentials.CachedCatalogsMatchStoredRecords | crates/misy-core/src/core/cache.rs:100-117 | in every run, whenever the credential lock is free, each admitted catalog was fetched with the record now stored, and none predates the last locked mutation of its provider |
| Credentials.AdmissionChecksTheStoredRecord | crates/misy-core/src/core/cache.rs:48-65 | a catalog passes the admission check only if its request carried the record stored at that moment |
| Credentials.RotationOverwritesNothingNewer | crates/misy-core/src/core/authentication.rs:436-452 | a rotation past its check writes only if the record was neither written nor removed since its capture, even if the capture fell between a file write and its epoch bump |
| Credentials.StatesAreWhatWasNoted | crates/misy-core/src/core/authentication.rs:365-399 | in every run presence, method and epoch of a provider are what the last mutation or status query said, and how many there were |
| Credentials.RotationPassesIff | crates/misy-core/src/core/authentication.rs:436-452 | in every run a rotation passes its check, and then stores its record, iff no mutation and no status query of its provider came since its capture |
| Credentials.AdmissionPassesIff | crates/misy-core/src/core/cache.rs:100-117 | in every run a catalog is admitted, as it is and for its provider only, iff the provider had credentials when the fetch began and no mutation and no status query came since |
| Credentials.EvictionGuardNeverFires | crates/misy-core/src/model_cache.rs:259-282 | when a mutation evicts, no cached tag exceeds its epoch, so the guard never fires and the catalog is gone |
| Credentials.TagLagsByStatusQueries | crates/misy-core/src/core.rs:379-400 | in every run, with the credential lock free, the tag of an admitted catalog lags behind the epoch by exactly the status queries since its admission, so the two are equal iff there were none |
| Credentials.TagMayLagBehindEpoch | crates/misy-core/src/core.rs:379-400 | a run in which a status query leaves a cached tag behind the epoch |
| SessionLog.LoadPath | crates/misy-core/src/core/session.rs:412-451 | the loading loop, which stops at the first unreadable line, computes the replay: histories, checklist, checkpoints, selection and next ordinal |
| SessionLog.ReplaySnoc | crates/misy-core/src/core/session.rs:424-451 | one more line replays as one more record, unless an unreadable line precedes it |
| SessionLog.UnreadableEndsTheReplay | crates/misy-core/src/core/session.rs:424 | an unreadable line ends the replay: whatever follows it is dropped |
| SessionLog.ReplayReadsUpToUnreadable | crates/misy-core/src/core/session.rs:424 | a file replays as the lines before its first unreadable one |
| SessionLog.TornLinesAreSkipped | crates/misy-core/src/core/session.rs:425-427 | a readable line that is no envelope changes nothing that is replayed, wherever it stands |
| SessionLog.ModelIsTheLastOne | crates/misy-core/src/core/session.rs:436-441 | the model is that of the last record that changes it, or the one of the header |
| SessionLog.ThinkingIsTheLastOne | crates/misy-core/src/core/session.rs:436-443 | the thinking level is that of the last record that changes model or level, or none |
| SessionLog.NextOrdinalIsExact | crates/misy-core/src/core/session.rs:422-427 | the next ordinal is one above the largest that was read, and 1 without any |
| SessionLog.PreservedTailHoldsTwoTurns | crates/misy-core/src/core/compaction.rs:451-459 | the preserved tail exists exactly when there are two user turns, starts at a user entry and holds exactly two |
| SessionLog.PreservedTailIsUnique | crates/misy-core/src/core/compaction.rs:451-459 | starting at a user entry and holding two user turns pins the tail start down |
| SessionLog.ErasingTwice | crates/misy-core/src/core/agent.rs:116-127 | clearing images changes a history only up to attachments |
| SessionLog.ErasedIsExact | crates/misy-core/src/core/agent.rs:116-127 | clearing images takes them from entries and results, and nothing else |
| SessionLog.SameTextSameTail | crates/misy-core/src/core/compaction.rs:451-459 | images play no part in where the preserved tail starts |
| Conversation.CoreState.constructor | crates/misy-core/src/core.rs:237-241 | a new process has an empty conversation and no session |
| Conversation.CoreState.Append | crates/misy-core/src/core/session.rs:293-326 | an append creates the session if needed and logs the record with the next ordinal; a failure poisons the session; a poisoned session skips and reports success |
| Conversation.CoreState.PushMainHistory | crates/misy-core/src/core/agent.rs:104-114 | an entry reaches both histories and the log |
| Conversation.CoreState.SetTodos | crates/misy-core/src/core/session_api.rs:256-272 | a replaced checklist reaches the log |
| Conversation.CoreState.RemoveEphemeralHistory | crates/misy-core/src/core/turn/loop.rs:135-146 | exactly the retry entries at the end of the active history are dropped |
| Conversation.CoreState.ClearMainHistoryImages | crates/misy-core/src/core/agent.rs:116-127 | attachments go from every active entry; canonical transcript and log keep theirs |
| Conversation.CoreState.StartCompaction | crates/misy-core/src/core/compaction.rs:342-369 | takes the compaction slot, or fails and leaves it to the compaction that holds it |
| Conversation.CoreState.FinishCompaction | crates/misy-core/src/core/compaction.rs:371-406 | frees the slot |
| Conversation.CoreState.GenerateAndPersistCompaction | crates/misy-core/src/core/compaction.rs:229-286 | undisturbed: measure, then log, then install; without summary, progress or log the active history is untouched |
| Conversation.CoreState.CompactHistory | crates/misy-core/src/core/compaction.rs:193-227 | a whole undisturbed compaction; nothing happens without something to compact or without the slot |
| Conversation.CoreState.NewSession | crates/misy-core/src/core/session_api.rs:78-82 | a new conversation is empty, detached and no longer poisoned |
| Conversation.CoreState.ResumeSession | crates/misy-core/src/core/session_api.rs:91-150 | a resumed conversation is what its log replays to, and continues its numbering |
| Conversation.AppendedReplays | crates/misy-core/src/core/session.rs:293-326 | a successful append replays as one more record, with the next ordinal |
| Conversation.ApplyKeepsInv | crates/misy-core/src/core/compaction.rs:193-286 | every step, racing or not, keeps log, transcript, checklist and numbering in agreement and every logged checkpoint in its log |
| Conversation.ReplayRefinesTranscript | crates/misy-core/src/core/session.rs:412-475 | after every run without a failed write the log replays to the canonical transcript and the checklist exactly and continues the numbering |
| Conversation.OrdinalsAreConsecutive | crates/misy-core/src/core/session.rs:307-319 | in every run records are numbered 1, 2, 3, … across restarts and resumptions |
| Conversation.PoisonFreezesFiles | crates/misy-core/src/core/session.rs:298-300 | after a failed write no file changes until the session is switched, in every run |
| Conversation.FailedWriteKeepsTheLog | crates/misy-core/src/core/session.rs:293-326 | after a failed write, in every run, the log still replays to the transcript and the checklist of the last successful append, and to nothing if the first append of a conversation failed; no other file changes |
| Conversation.CompactionIsAllOrNothing | crates/misy-core/src/core/compaction.rs:253-286 | in every run no step of a compaction touches transcript or checklist, only installing touches the active history and only logging the files; a failed write ends the compaction |
| Conversation.InstalledHistoryHasTwoTurns | crates/misy-core/src/core/compaction.rs:261-284 | in every run what is installed is the summary and exactly two user turns, and its checkpoint is in the log it went to |
| Conversation.OnlyPoisonSkipsTheLog | crates/misy-core/src/core/session.rs:298-300 | a checkpoint goes into no log exactly if the conversation is poisoned when it is due |
| Conversation.StepsOfACompaction | crates/misy-core/src/core/compaction.rs:193-286 | uninterrupted, the interleaved steps of a compaction compute the undisturbed operation |
| Conversation.OneCompactionAtATime | crates/misy-core/src/core/compaction.rs:342-369 | in every run at most one compaction is past its announcement |
| Conversation.AppendSucceedsIff | crates/misy-core/src/core/session.rs:293-326 | an append poisons the conversation iff the file system fails it |
| Conversation.SelectionIsLogged | crates/misy-core/src/core/session.rs:249-291 | in every run a changed selection is what the log of the attached session replays to, and is not logged without one |
| Conversation.RetryIsShownUntilDropped | crates/misy-core/src/core/turn/loop.rs:109-146 | a retry is shown behind everything else, reaches neither transcript nor log, and leaves no trace when dropped |
| Conversation.SwitchInsidePush | crates/misy-core/src/core/turn/loop.rs:237-249 | a push whose log append comes after a session switch: the log agrees with the transcript iff the push had not reached the transcript, and with the active history iff it had not reached that |
| Conversation.SwitchInsideSetTodos | crates/misy-core/src/core/todos.rs:129-136 | a checklist whose log append comes after a session switch is in the log but not live |
| Conversation.SwitchInsideRetry | crates/misy-core/src/core/turn/loop.rs:109-146 | a switch between the two entries of a retry: dropping them cuts the last entry of the conversation that was switched to |
| Conversation.AppendsInsideResume | crates/misy-core/src/core/session_api.rs:91-150 | what a resume attaches agrees with the log iff nothing was appended to that file since it was read, which holds unless it is the attached session; else ordinals repeat |
| Compaction.TailOfProjection | crates/misy-core/src/core/session.rs:509-525 | in a projected history the tail start lies behind the summary and marks the same entries as in the canonical transcript: the synthetic summary is never chosen |
| Compaction.IndexIsCanonicalTailStart | crates/misy-core/src/core/compaction.rs:253-260 | the subtraction is exact, does not saturate, and gives the second-to-last user entry of the canonical transcript |
| Compaction.IndexIsRightIffNothingIntervened | crates/misy-core/src/core/compaction.rs:200-260 | without the discipline: the recorded index is right exactly when appended entries and unlogged retry entries are equally many |
| Compaction.AgreementLasts | crates/misy-core/src/core/turn/loop.rs:82-146 | pushes, retries, their drops, images, checklist and selection never make log and shown history agree or disagree |
| Compaction.SwitchSettles | crates/misy-core/src/core/session_api.rs:31-150 | in every state a switch makes log and live agree, whatever happened before, unless a compaction is under way or retries are counted; the end of the process always does |
| Compaction.KeptIsLast | crates/misy-core/src/core/session.rs:424-451 | for every file: what a compaction of the replayed history keeps are the last entries of the transcript, and the subtraction that computes the index is exact |
| Compaction.StepKeepsDisc | crates/misy-core/src/core/compaction.rs:193-286 | every disciplined step keeps shown history, the compaction under way and log in agreement |
| Compaction.ReplayRefinesLive | crates/misy-core/src/core/session.rs:412-475 | let anything happen until a settled state, and keep the discipline from there: without a failed write the log replays to what the provider is shown, up to images and trailing retry entries; a logged result that is not installed yet counts as shown |
| Compaction.CheckpointsPointAtTheTail | crates/misy-core/src/core/compaction.rs:253-277 | in disciplined runs every checkpoint of every log kept exactly two user turns of its time, and the indices never decrease |
| Compaction.FailedWriteKeepsTheShownHistory | crates/misy-core/src/core/session.rs:293-326 | after a failed write, the first one of a conversation included, the log still replays to what the provider was shown at the last successful append |
| Compaction.InstallAgreesIff | crates/misy-core/src/core/compaction.rs:277-284 | whatever happened before a checkpoint is logged and whatever interferes until it is installed: what is shown, what the log replays to, and exactly when the two agree, at once and for good |
| Compaction.FinishAgreesIff | crates/misy-core/src/core/compaction.rs:253-284 | the same from the measurement on: agreement iff nothing is appended in between and the last entries measured read like the kept ones, or, for a shorter transcript, iff all of it reads like them; for good iff so without the retries counted at the install |
| Compaction.AppendsDuringCompaction | crates/misy-core/src/core/compaction.rs:200-284 | any number of appends while the summary is generated: agreement iff none follows the measurement and each kept entry reads like the one as many positions later, for good iff no retries are counted at the install |
| Compaction.TheTailIsCanonical | crates/misy-core/src/core/compaction.rs:253-260 | disciplined since the first process, the kept entries start at the second-to-last user entry of the transcript |
| Compaction.RetriesOutliveSwitch | crates/misy-core/src/core/turn/loop.rs:135-146 | a switch while retries are counted: the next drop cuts as many entries of the resumed conversation, which agrees with its log iff it had none |
| Compaction.ResumeDuringCompaction | crates/misy-core/src/core/session_api.rs:91-150 | a session resumed during a compaction, whatever is said in it before the install, gets the result; it agrees with its log iff its own last entries read like the kept ones and none follow, or all of a shorter one reads like them |
| Compaction.NewSessionDuringCompaction | crates/misy-core/src/core/session_api.rs:31-85 | a new session during a compaction, whatever is said in it before the install, gets the tail of the old conversation; it never agrees with its log while less is said than was kept |
| Compaction.SwitchBeforeInstall | crates/misy-core/src/core/compaction.rs:277-284 | a switch between logging and installing: the installed result is in no log of the conversation it lands in |
| Compaction.CompactionRaceSplitsLogFromLive | crates/misy-core/src/core/compaction.rs:40-58 | a run without a failed write after which the log does not replay to the active history |
| Compaction.RetriesCutTheKeptTail | crates/misy-core/src/core/turn/loop.rs:135-146 | a run without failure, append or switch in which an installed history agrees with its log until retries are dropped |
| Compaction.CompactionSurvivesNewSession | crates/misy-core/src/core/session_api.rs:178-200 | a run without a failed write in which the compaction of one conversation ends up in the next one |
| Progress.SnapshotIsTakenIff | crates/misy-core/src/core/compaction.rs:200-214 | a compaction begins iff something precedes the last two user turns |
| Progress.MeasuringDecides | crates/misy-core/src/core/compaction.rs:253-276 | in every run a summary is used iff it and the kept turns are estimated smaller than the history the compaction was begun on; the checkpoint states both estimates |
| Progress.InstallingShortens | crates/misy-core/src/core/compaction.rs:261-284 | in every run what is installed is the summary and the kept turns of the history the compaction was begun on, and smaller than it |
| Progress.EveryCheckpointMakesProgress | crates/misy-core/src/core/compaction.rs:263-280 | in every run every checkpoint of every log has fewer tokens after than before |
| Queue.SubmissionQueue.constructor | crates/misy-core/src/core/queue.rs:18-23 | an empty queue with open admission |
| Queue.SubmissionQueue.EnqueueSubmission | crates/misy-core/src/core/queue.rs:130-169 | refused exactly after closing; otherwise one critical section registers, announces and queues, and says who starts the worker |
| Queue.SubmissionQueue.PopNext | crates/misy-core/src/core/queue.rs:246-259 | takes the oldest submission or retires the worker |
| Queue.SubmissionQueue.RunSubmission | crates/misy-core/src/core/agent.rs:9-102 | cancelled work ends without starting; other work starts and ends as its turn loop did, given the cancellations that arrive meanwhile |
| Queue.SubmissionQueue.FinishSubmission | crates/misy-core/src/core/queue.rs:277-292 | takes the submission off `current` and off the registry |
| Queue.SubmissionQueue.RunToTheEnd | crates/misy-core/src/core/queue.rs:260-274 | runs, takes the submission off the registry, then publishes how it ended |
| Queue.SubmissionQueue.DrainSubmissionQueue | crates/misy-core/src/core/queue.rs:244-275 | with any cancellations arriving during each turn, the worker publishes exactly the events of the pending submissions in order and leaves the queue empty |
| Queue.SubmissionQueue.CancelSubmission | crates/misy-core/src/core/queue.rs:171-184 | flags a known submission, reports an unknown one |
| Queue.SubmissionQueue.CancelAllSubmissions | crates/misy-core/src/core/queue.rs:186-197 | flags everything in the registry |
| Queue.SubmissionQueue.CancelCurrentSubmission | crates/misy-core/src/core/queue.rs:199-212 | flags the current submission, if there is one |
| Queue.SubmissionQueue.CloseAdmission | crates/misy-core/src/core.rs:533-541 | closes admission |
| Queue.SubmissionQueue.Snapshot | crates/misy-core/src/core/queue.rs:26-38 | shows the current and the queued ids that are not cancelled |
| Queue.OneWorkerAndNoLostWakeup | crates/misy-core/src/core/queue.rs:94-112 | in every run there is at most one worker, and pending work has one |
| Queue.EventsAreFifo | crates/misy-core/src/core/queue.rs:244-275 | acceptances, starts and terminal events come in increasing id order across hand-offs; terminal events follow acceptance with at most one submission under way; what does not end as cancelled was started first |
| Queue.DrainedQueueReportedEverything | crates/misy-core/src/core/queue.rs:244-275 | a drained queue without an aborted worker has exactly one terminal event for each acceptance |
| Queue.RegistryIsPendingPlusCurrent | crates/misy-core/src/core/queue.rs:142-162 | the registry holds exactly the pending and the current ids |
| Queue.TerminalEventComesLast | crates/misy-core/src/core/queue.rs:247-273 | when a terminal event is published, no snapshot shows and no canceller finds its submission |
| Queue.NothingAcceptedAfterClosing | crates/misy-core/src/core/queue.rs:136-141 | no acceptance follows the closing of admission |
| Queue.SweepCancelsEverything | crates/misy-core/src/core/queue.rs:186-197 | once the cancel-all pass is complete, everything in the registry is cancelled |
| Queue.NothingStartsAfterTheSweep | crates/misy-core/src/core/agent.rs:17-19 | after the pass, from every state, nothing starts any more but at most the one submission whose worker had already passed its cancellation check |
| Queue.ShutdownStopsTheQueue | crates/misy-core/src/core.rs:576-579 | closing and sweeping together: no acceptance is published afterwards, and no start but at most that one |
| Queue.CancelledInTimeNeverStarts | crates/misy-core/src/core/agent.rs:17-23 | in every run, a submission flagged before its worker checks it is never started, and its terminal event, if any, is a cancellation |
| Queue.OutcomesAreReported | crates/misy-core/src/core/agent.rs:17-92 | in every run a terminal event is completed iff its submission was started and answered, cancelled iff it never started or its turn failed and said so or was flagged by then, and failed iff neither |
| Queue.DrainReports | crates/misy-core/src/core/queue.rs:240-275 | the same for the events of a drained queue |
| Queue.IdsAreConsecutive | crates/misy-core/src/core/queue.rs:142-142 | submissions are numbered 1, 2, 3, … as they are accepted |
| Queue.MessagesAreKept | crates/misy-core/src/core/queue.rs:130-169 | in every run a submission carries the message it was accepted with |
| Queue.SnapshotShowsTheQueue | crates/misy-core/src/core/queue.rs:26-38 | in every run a snapshot shows exactly the current and the waiting submissions that are not cancelled, in order |
| Queue.StepsOfACancellation | crates/misy-core/src/core/queue.rs:171-184 | cancelling a submission that can be found flags it and nothing else |
| Queue.StepsOfTheSweep | crates/misy-core/src/core/queue.rs:186-197 | the pass takes in what can be found when it begins, and each step flags one of these |
| Questions.QuestionRegistry.constructor | crates/misy-core/src/core/questions.rs:129-135 | an empty registry |
| Questions.QuestionRegistry.Register | crates/misy-core/src/core/questions.rs:147-183 | refused after three dismissals or when too large; otherwise pending under a fresh id |
| Questions.QuestionRegistry.Answer | crates/misy-core/src/core/questions.rs:185-204 | a valid answer claims the question and clears its source's counter; an invalid one leaves it pending |
| Questions.QuestionRegistry.Dismiss | crates/misy-core/src/core/questions.rs:206-221 | a dismissal claims the question and counts |
| Questions.QuestionRegistry.TakeCancel | crates/misy-core/src/core/questions.rs:223-230 | a cancellation claims the question if it is still pending |
| Questions.QuestionRegistry.TakeAll | crates/misy-core/src/core/questions.rs:232-244 | the drain takes all pending questions |
| Questions.ClaimedAndResolvedAtMostOnce | crates/misy-core/src/core/questions.rs:185-244 | in every run no question is claimed twice, resolved twice or resolved before it is claimed |
| Questions.EveryQuestionIsResolvedOnce | crates/misy-core/src/core/questions.rs:372-412 | when no claimant is at work every question is pending or was resolved exactly once; after the drain all were |
| Questions.WaiterReturnsTheClaim | crates/misy-core/src/core/questions.rs:393-407 | a waiter returns the claimant's resolution: a late cancellation never loses an accepted answer |
| Questions.NoWaiterIsStranded | crates/misy-core/src/core/questions.rs:403-407 | once its question is claimed and the claimant is done, a waiter can return |
| Questions.RefusedAfterThreeDismissals | crates/misy-core/src/core/questions.rs:147-160 | registration is refused exactly when the source has dismissed three times since its last accepted answer |
| Questions.RegistrationIsExact | crates/misy-core/src/core/questions.rs:147-183 | in every run a registration is refused without an id after three dismissals, refused with one beyond 65536 bytes, and else pending under it |
| Questions.ValidIsAcceptable | crates/misy-core/src/core/questions.rs:349-370 | the answers that are valid: one for each question and nothing else, each of at most 2000 characters and not all white space, 65536 bytes encoded |
| Questions.AnswerIsAcceptedIff | crates/misy-core/src/core/questions.rs:185-204 | an answer claims its question iff that is pending and the answer acceptable; else nothing happens |
| Questions.DismissalIsCounted | crates/misy-core/src/core/questions.rs:206-221 | a dismissal claims its question and counts once against its source |
| Questions.CancelledWaiterReturns | crates/misy-core/src/core/questions.rs:393-412 | a cancelled waiter claims its pending question and returns, or waits for whoever has; an aborted one never returns |
| ProviderHost.Host.constructor | crates/misy-core/src/providers/host.rs:189-205 | a new host has no processes |
| ProviderHost.Host.CheckProcess | crates/misy-core/src/providers/host.rs:415-431 | the first locked section: shutdown, a healthy process, an unknown provider, or a process to start |
| ProviderHost.Host.RegisterProcess | crates/misy-core/src/providers/host.rs:440-457 | the second locked section: registers unless shutdown or a healthy process came first |
| ProviderHost.Host.TakeProcesses | crates/misy-core/src/providers/host.rs:391-401 | shutdown takes all processes once and closes the host |
| ProviderHost.HealthyIsNeverOverwritten | crates/misy-core/src/providers/host.rs:440-457 | in every run a healthy registered process stays registered until shutdown takes it |
| ProviderHost.NothingIsRegisteredAfterShutdown | crates/misy-core/src/providers/host.rs:391-401 | once shutdown has taken the processes the map stays empty |
| ProviderHost.EveryProcessIsAccountedFor | crates/misy-core/src/providers/host.rs:411-461 | every started process is in the hand of exactly one starter, or registered exactly once, or failed and replaced, or taken by shutdown, or shut down by its losing starter |
| ProviderHost.NoProcessSurvivesShutdown | crates/misy-core/src/providers/host.rs:390-461 | after a settled shutdown every process ever started was shut down or had failed |
| ProviderHost.OnlyUnregisteredProcessesAreStopped | crates/misy-core/src/providers/host.rs:402-407 | a registered process has not been stopped by shutdown or by a losing starter |
| ProviderHost.RaceIsAnsweredByTheServingProcess | crates/misy-core/src/providers/host.rs:440-460 | who wins or loses the race, and that the answer is the process serving the provider then |
| ProviderHost.BeginIsAnswered | crates/misy-core/src/providers/host.rs:415-431 | what a request is answered with: shut down, the healthy process, unknown, or a process has to be started |
| ProviderHost.LoserIsAnswered | crates/misy-core/src/providers/host.rs:458-460 | a starter that lost is answered with its replacement, if there is one, once its own process is shut down |
| ProviderHost.ShutdownIsAnsweredTruthfully | crates/misy-core/src/providers/host.rs:411-461 | in every run nobody is told that the host is shut down unless it is |
| Admission.ActivityAdmission.constructor | crates/misy-core/src/tools/activity.rs:121-126 | counters start at zero |
| Admission.ActivityAdmission.ReserveSlot | crates/misy-core/src/tools/activity.rs:382-404 | the refusals and the counter updates of a reservation |
| Admission.ActivityAdmission.ReleaseSlot | crates/misy-core/src/tools/activity.rs:406-427 | the saturating counter updates of a release |
| Admission.CountersAreLivePermits | crates/misy-core/src/tools/activity.rs:121-134 | after any reservations and drops the counters equal the live permits, in total, over children and per child; the child total is the sum of the map; the limits 64, 48 and 16 hold |
| Admission.DroppingNeverSaturates | crates/misy-core/src/tools/activity.rs:406-427 | dropping a live permit undoes its reservation: no subtraction stops at zero |
| Admission.AdmittedIffWithinLimits | crates/misy-core/src/tools/activity.rs:382-404 | a request is admitted exactly when one more permit keeps all limits |
| Admission.RefusalIsExact | crates/misy-core/src/tools/activity.rs:382-404 | in every run all are busy at 64 permits, and the quota of children is 48 in all and 16 each |
| Admission.MainAlwaysHasRoom | crates/misy-core/src/tools/activity.rs:382-404 | the main agent is admitted whenever it holds fewer than 16 permits |
| Admission.RecentActivities.RetainRecent | crates/misy-core/src/tools/activity.rs:447-464 | the finished activity moves to the front, the list is cut at twenty, and exactly the records that fall off are forgotten |
| Admission.RecentIsTheLastTwenty | crates/misy-core/src/tools/activity.rs:447-464 | cutting at every step loses nothing: the list is always the twenty most recently finished, latest first, without repetition |
| Admission.LatestComesFirst | crates/misy-core/src/tools/activity.rs:447-464 | the list holds at most the twenty activities that finished last, each once, the later one first |
| Instructions.InstructionSession.constructor | crates/misy-core/src/core/instructions.rs:184-197 | a new session has cached, activated and reserved nothing |
| Instructions.InstructionSession.BeginSubmission | crates/misy-core/src/core/instructions.rs:203-207 | clears activations and reported warnings |
| Instructions.InstructionSession.FinishSubmission | crates/misy-core/src/core/instructions.rs:209-215 | remembers the report of the submission and clears activations |
| Instructions.InstructionSession.ReportSources | crates/misy-core/src/core/instructions.rs:241-269 | the running submission, the last one if it reported a source, or the base |
| Instructions.InstructionSession.ReserveNested | crates/misy-core/src/core/instructions.rs:337-354 | reserves a slot and the bytes for both budget and session, or nothing at the limit |
| Instructions.InstructionSession.Load | crates/misy-core/src/core/instructions.rs:285-308 | the first look decides an entry; over the limit it is cached as blocked |
| Instructions.InstructionSession.Discover | crates/misy-core/src/core/instructions.rs:271-335 | the discovery loop: entries, activations, first error, unreported warnings |
| Instructions.InstructionSession.Drop | crates/misy-core/src/core/instructions.rs:404-412 | gives the reservations back |
| Instructions.LoadedBaseFits | crates/misy-core/src/core/instructions.rs:566-579 | base sources load iff they are at most 256 and eight mebibytes together, and then reserve exactly that |
| Instructions.BudgetIsConserved | crates/misy-core/src/core/instructions.rs:337-412 | in every run the budget is the base plus the reservations of the open sessions, each of which is what its cache holds; it stays within the limits and returns to the base when all sessions are dropped |
| Instructions.DropIsExact | crates/misy-core/src/core/instructions.rs:404-412 | dropping a session gives back exactly its reservation |
| Instructions.CachedEntriesNeverChange | crates/misy-core/src/core/instructions.rs:285-308 | a cached entry never changes until its session is dropped, whatever the files become |
| Instructions.FinishedReportIsShown | crates/misy-core/src/core/instructions.rs:209-269 | the report of a finished submission is what a client is shown, unchanged by other sessions, files and discoveries, until the next submission; one without sources is not remembered |
| Instructions.FirstLookDecides | crates/misy-core/src/core/instructions.rs:285-354 | what the first look at a path caches and reserves, with the limits of 256 slots and eight mebibytes |
| Instructions.DiscoveryIsExact | crates/misy-core/src/core/instructions.rs:271-335 | a discovery activates iff some candidate was not active before and is cached with content or blocked; it reports exactly the keys not reported before of newly active blocked candidates and, without an error, of the rendering, each once |
| Instructions.NewSubmissionStartsOver | crates/misy-core/src/core/instructions.rs:203-207 | in a new submission what is cached is activated and reported again |
| Instructions.FinishedSubmissionStartsOver | crates/misy-core/src/core/instructions.rs:209-215 | what a finished submission had activated is activated again |
| Instructions.ReportOfSubmission | crates/misy-core/src/core/instructions.rs:209-269 | an active submission shows its own sources, a finished one its last report |
| Instructions.RepeatedDiscoveryIsSilent | crates/misy-core/src/core/instructions.rs:271-335 | asking again in one submission activates nothing, reports no new warning, changes neither session nor budget and returns the same error, whatever other sessions and the files did since |
| Redaction.FindAsciiKeyword | crates/misy-core/src/providers/redaction.rs:84-100 | the first occurrence that does not continue a longer word, or none |
| Redaction.BearerTokenSpan | crates/misy-core/src/providers/redaction.rs:104-118 | the token behind whitespace, if it has sixteen bytes |
| Redaction.HeaderValueStart | crates/misy-core/src/providers/redaction.rs:123-140 | where a header-shaped value starts |
| Redaction.RedactBearerTokens | crates/misy-core/src/providers/redaction.rs:36-55 | the cursor loop computes the position-by-position scan |
| Redaction.RedactHeaderValue | crates/misy-core/src/providers/redaction.rs:57-79 | the cursor loop computes the position-by-position scan |
| Redaction.BearerPassCleans | crates/misy-core/src/providers/redaction.rs:36-55 | after the bearer pass no word-boundary `bearer` is followed by whitespace and sixteen token bytes, and no later pass makes one |
| Redaction.HeaderPassMasks | crates/misy-core/src/providers/redaction.rs:57-79 | after a header pass every header-shaped value is the placeholder up to its line end, and the other pass keeps it so |
| Redaction.PassIsIdempotent | crates/misy-core/src/providers/redaction.rs:36-79 | running a pass twice is running it once |
| Redaction.ScanIsSpliced | crates/misy-core/src/providers/redaction.rs:36-79 | a pass replaces disjoint spans and leaves everything outside them as it is |
| Redaction.SecretsAreExact | crates/misy-core/src/providers/redaction.rs:36-79 | every announced secret is replaced, or announced inside a replaced one |
| Redaction.SecretSurvivesIff | crates/misy-core/src/providers/redaction.rs:36-79 | an announced secret is replaced as a whole or not at all; it survives iff it is a bearer token whose keyword is the end of another, replaced token |
| Redaction.SurvivorIsCopied | crates/misy-core/src/providers/redaction.rs:36-79 | a secret that no replaced span touches stands in the output unchanged |
| Redaction.SecondTokenSurvives | crates/misy-core/src/providers/redaction.rs:36-55 | of two tokens, the first of which ends in the keyword of the second, only the first is replaced |
| Redaction.OnlySecretsAreReplaced | crates/misy-core/src/providers/redaction.rs:36-79 | every replaced span is an announced secret |
| Redaction.CutsAreBoundaries | crates/misy-core/src/providers/redaction.rs:84-140 | every position at which a pass cuts its input is a character boundary |
| Redaction.RedactedIsWhole | crates/misy-core/src/providers/redaction.rs:28-34 | redaction keeps character boundaries intact for the next pass |
| Redaction.TruncateMessage | crates/misy-core/src/providers/redaction.rs:152-165 | the cut is the last character boundary within the limit, and the marker names it |
| Redaction.SanitizeRemoteMessage | crates/misy-core/src/providers/redaction.rs:28-34 | the passes in their order, then the cap |
| Redaction.SanitizedTextIsClean | crates/misy-core/src/providers/redaction.rs:28-34 | before truncation no bearer secret and no unmasked header value is left; truncation makes none, it may only cut a placeholder short |
| Redaction.TruncationIsExact | crates/misy-core/src/providers/redaction.rs:152-165 | a message of at most 1024 bytes is kept; a longer one up to its last character boundary within them, followed by the marker |
| Masking.SecretsAreLiteral | crates/misy-core/src/providers/redaction.rs:36-140 | what is a secret, letter by letter: each letter of a keyword in either case, at a word boundary, and the characters that may follow |
| Masking.MergedSpans | crates/misy-core/src/providers/redaction.rs:28-34 | replacing spans twice is replacing spans of the first text once, which cover what the two covered |
| Masking.EverySecretIsMasked | crates/misy-core/src/providers/redaction.rs:28-34 | before the cap a message comes out as itself with some spans replaced, and every announced secret lies in one of them, unless its keyword is part of a replaced token, for which it has to follow a dot |
| Masking.SilentTextIsKept | crates/misy-core/src/providers/redaction.rs:28-34 | a message that announces nothing comes out as it is |
| Masking.NothingIsAnnounced | crates/misy-core/src/providers/redaction.rs:28-34 | what comes out announces no token, and no header value but the placeholder |
| Selector.UnescapeModelComponent | crates/misy-core/src/domain.rs:202-218 | the decoding loop computes the recursive decoding |
| Selector.UnescapeUndoesEscape | crates/misy-core/src/domain.rs:198-218 | decoding undoes escaping for every text, and escaped text holds no `:` |
| Selector.UnescapedIsExact | crates/misy-core/src/domain.rs:202-218 | a component decodes to a name iff it writes it character by character, with `%25`, `%3A` or `%3a`; all else is invalid |
| Selector.EscapedPieces | crates/misy-core/src/domain.rs:198-200 | a name is printed with `%25` for a percent sign, `%3A` for a colon and all else as it is |
| Selector.ThinkingLevels | crates/misy-core/src/domain.rs:220-227 | which texts are thinking levels, character by character |
| Selector.ParseAcceptsExactlySpellings | crates/misy-core/src/domain.rs:144-169 | the parser accepts exactly the spellings of selectable profiles, and as those profiles |
| Selector.RoundTrip | crates/misy-core/src/domain.rs:125-169 | parsing a printed profile gives it back exactly when the profile is selectable |
| Selector.PrintIsInjective | crates/misy-core/src/domain.rs:125-131 | different selectable profiles print differently |
| Selector.Canonicalization | crates/misy-core/src/domain.rs:125-169 | printing what was parsed is a fixed point that parses to the same profile |
| Selector.SameProfileIffSameCanonicalForm | crates/misy-core/src/domain.rs:125-169 | two texts select the same profile exactly when their canonical forms are equal |
| Selector.RefusalIsExact | crates/misy-core/src/domain.rs:144-165 | which texts are refused for a missing separator, an empty component or an empty thinking level |
| Replacement.ReplaceAllReplacesLeftmostMatches | crates/misy-core/src/tools/string_replace.rs:49-67 | replacing all matches cuts the text at its leftmost non-overlapping matches, in the only possible way, and joins the pieces with the new text |
| Replacement.LeftmostSplitIsUnique | crates/misy-core/src/tools/string_replace.rs:49-67 | there is only one way to cut a text at its leftmost matches |
| Replacement.ReplacedLength | crates/misy-core/src/tools/string_replace.rs:92-110 | the matches fit into the text and each changes its length by the same amount |
| Replacement.ProjectedLengthIsExact | crates/misy-core/src/tools/string_replace.rs:92-110 | the projected length is the length of the result; it is refused exactly when that exceeds the machine word, and the first two checked operations never fail |
| Replacement.EnoughReplacesAll | crates/misy-core/src/tools/string_replace.rs:62-66 | with one match, replacing one and replacing all give the same text |
| Replacement.ReplaceIsExact | crates/misy-core/src/tools/string_replace.rs:49-67 | an edit is made exactly when it is non-trivial, found, unambiguous or asked for everywhere, and fits |
| Replacement.RefusalIsExact | crates/misy-core/src/tools/string_replace.rs:69-110 | which reason a refused edit gives |
| Paging.LineSpans | crates/misy-core/src/tools/filesystem.rs:98-111 | the byte loop computes the line spans |
| Paging.LinesTile | crates/misy-core/src/tools/filesystem.rs:98-111 | the spans cover the content with no gap and no overlap, and every newline ends one |
| Paging.TilingIsUnique | crates/misy-core/src/tools/filesystem.rs:98-111 | they are the only such spans |
| Paging.FormatPage | crates/misy-core/src/tools/filesystem.rs:67-96 | the page loop computes the page and its text, header and footer included |
| Paging.FooterStandsAlone | crates/misy-core/src/tools/filesystem.rs:80-95 | the footer stands on a line of its own behind the header and the unchanged lines |
| Paging.PageSays | crates/misy-core/src/tools/filesystem.rs:67-96 | the text of a page, with numerals that denote the offset, its first and last line, and the next offset |
| Numerals.DecimalDenotes | crates/misy-core/src/tools/filesystem.rs:77-91 | a numeral stands for the number it was written for, without leading zeros |
| Paging.PageHoldsLines | crates/misy-core/src/tools/filesystem.rs:67-91 | a page holds the consecutive lines from its offset up to the limit, and names the next line exactly when there is one |
| Paging.PageOutsideIsEmpty | crates/misy-core/src/tools/filesystem.rs:67-96 | outside the content a page is empty and the last one |
| Paging.OnlyAnOpenLineIsClosed | crates/misy-core/src/tools/filesystem.rs:84-86 | a newline is added exactly behind an unterminated last line |
| Paging.WalkReconstructsContent | crates/misy-core/src/tools/filesystem.rs:67-96 | from offset 1 with any limit of at least one line, following the named offsets reassembles the content, ends, and never names an offset beyond the last line |
| Paging.PageAdvancesIffLimitIsPositive | crates/misy-core/src/tools/filesystem.rs:67-96 | a named next offset differs from the page's own exactly when the limit is positive |

## Left out

- The terminal user interface, the TypeScript provider plugins, the JSON, TOML and HTTP formats, real files, processes and terminals. A session file is a sequence of records and appends are all-or-nothing; `write_atomic` is one atomic step; a file name is a number.
- The turn loop, child agents, the agent registry, summary generation and instruction rendering: their results are parameters of the steps (how a turn ended, a summary or none, the rendered warnings). The token estimator is an arbitrary function.
- Cancellation of an asynchronous operation halfway through a critical section, poisoned mutexes, timers, and the order in which subscribers receive events. Aborting a worker or a waiter is a step of its own.
- Counters and ids (`u64`) do not wrap here. Saturating and checked arithmetic is written out where the code relies on it.
- `is_stale` and every other use of the clock; freshness plays no part in the results.
- Conversation.ReplayRefinesTranscript: says nothing about the selected model and thinking level, because the header of a session always stores no thinking level and the selection is not changed under the session lock.
- Conversation.CoreState.PushMainHistory: one step of a run, as are setting the checklist and switching sessions; the code takes the locks of the two histories, or of the checklist, and of the log one after the other. `Conversation.SwitchInsidePush`, `Conversation.SwitchInsideSetTodos` and `Conversation.SwitchInsideRetry` say what a switch in between does, `Conversation.AppendsInsideResume` what appends inside a resume do; a compaction that takes its snapshot or measures in between is not modelled.
- Half-written lines: a failed append leaves the file as it was. What an unreadable or torn line does to a replay is proved; that a failed append leaves one is not modelled.
- The other copy of compaction, for child agents after an overflow, writes no log.
- Questions.QuestionRegistry.Answer: the encoded sizes of requests and answers are inputs, and the parser of the questions is not modelled. The waiter's fallback for a resolver that vanishes before sending is not modelled.
- Queue.SubmissionQueue.DrainSubmissionQueue: lets only cancellations interfere; submissions that arrive while the worker runs are the subject of the transition system, whose steps are the same critical sections.
- ModelCache.ModelCatalogStore.Persist: interference of other actors is given as rounds of stagings between write and recheck; concurrent persisters are the subject of the transition system.
- Instructions.InstructionSession.Discover: takes the candidate directories and the readable sources as inputs; path resolution and reading are not modelled. Warning details beyond path and reason are opaque.
- Paging.FormatPage: offsets are unbounded; the results bound the named ones by the number of lines.
- Redaction.RedactBearerTokens: a byte is written as the character with its code, and texts of other characters are covered too. That a cut loses at most three bytes is not stated.
- Provider manifests, usage reports, roles, keybindings, configuration and command-line validation: single-branch checks.
