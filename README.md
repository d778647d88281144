# Ollama model backup tool — verified model of its bookkeeping core

This project models, in Dafny, the parts of the Ollama model backup tool that keep state and
make decisions, and proves what they promise:

- **the task-admission engine** (`AsyncExecutor` in `utils/AsyncExecutor.py`). It has a
  running registry (task id → long/short flag and whether its future is done), an
  insertion-ordered queue of waiting task descriptors, the process-id registry, the
  shutdown flag, the thread and process capacities and the queue limit. Tasks are admitted
  immediately, queued or rejected. On completion a task is cleaned up and the head of the
  queue is promoted. Results go to the callback directly, or through a mailbox in deferred
  mode. Queued tasks can be cancelled and the executor can be shut down
  (`executor.dfy`, module `Executor`);
- **the duplicate-key dictionary** `MultiKeyDict`: a counter hands out ids, `_keys` maps a key
  to its ids in insertion order, and `_values` maps an id to its `(key, value)` pair. Its
  representation invariant is proved to hold across every update (`multi_key_dict.dfy`,
  module `MultiKey`);
- **the duplicate-dropping FIFO queues** `UniqueQueue`, `SafeUniqueQueue`,
  `ObjectIDUniqueQueue` and `UniversalUniqueQueue`. They are modelled as one class
  parameterised by the key function (`unique_queue.dfy`, module `Unique`);
- **the model and blob registry** `ModelData` of `models/models.py`. It covers blob-to-model
  back-references, backup-status placeholders and `call_once` initialisation
  (`model_registry.dfy`, module `Registry`);
- **the older registry** `ModelData` of `models.py` (`legacy_models.dfy`, module `Legacy`);
- **from `ollamab.py`:** the blob names `parse_model_file` derives from a manifest's digests,
  the default archive names of the three backup routines, and the guard of
  `clean_temp_files` (`manifest.dfy`, module `Manifest`);
- **shared helpers:** the string pieces these use (`split(c)[0]`, `split(c)[-1]`, single-character
  `replace`) are in `text.dfy` (module `Text`). `Option`, `Result` and the Python exception
  kinds are in `wrappers.dfy` (module `Wrappers`), and the subset-size lemma both
  registries count with is in `sets.dfy` (module `Sets`).

Where the source updates objects in place, the model is a Dafny `class` whose methods have
`modifies` clauses and whose `ensures` give the whole new state. Each such class has a
`Valid()` invariant that every method preserves. The pure derivations are functions with
lemmas about them.

Observer notifications are not dispatched. Both registries append them to a `notes` log
instead, so the contracts state which notification each operation sends. The same log
technique records the executor's start-hook calls (`started`), the callbacks it invokes
(`delivered`) and the processes it terminates (`terminated`).

Digest strings follow the "Digests" section of the OCI image specification's descriptor
document (`algorithm:encoded`). Blob files are named by the same text with `:` replaced by
`-`.

### Behaviour of the code that the model keeps

In each case below the code behaves differently from what its docstrings or a first reading
suggest; the model follows the code.

- `_submit_task` calls the start hook unconditionally (utils/AsyncExecutor.py:394). The hook is
  `None` until `set_notify_processing` runs, so without a hook the call raises TypeError. By then
  the running entry and `_latest_task` are already stored. `execute_async` catches the error and
  returns False. `ExecuteAsync` states exactly this: the entry is added and
  `accepted == notifyHook.Some?`.
- `_process_next_queued_task` reads the queue's head with `next(iter(...))` whenever the queue is
  non-empty *or* `_latest_task` is set (:441-447). With an empty queue and a latest task the call
  raises StopIteration (`Promotion.HeadOfEmptyQueue`). In `_done_callback` that exception escapes
  after the cleanup and after the deferred-mode mailbox put, so the direct-mode callback is not
  called. `DoneCallback` states this case.
- Promotion of a queued *short* task tests the **total** number of running tasks against the
  thread capacity (:454), while admission tests the number of running short tasks (:227).
  With 2 threads and 1 process, when short task A completes while short task B and long task C
  still run, the queued short task D stays queued: two tasks still run, and 2 ≥ 2.
  `ShortPromotionBlockedByLongTask` proves this instance, `ShortPromotionStricterThanAdmission`
  the general direction, and `ShortPromotionDivergence` the exact condition under which the two
  tests disagree.
- Promotion of a queued *long* task tests the size of the process-id registry (:453), which the
  worker process fills asynchronously (:267-268). Because of that, the model claims no bound on
  the number of running long tasks across a promotion. The short-task bound it proves
  (`ProcessNextQueuedTask`, `ExecuteAsync`) is relative to the current capacities, which
  `set_concurrency` may lower at any time.
- Primitives are keyed by `str(item)` in `UniqueQueue`, so the int `1` and the string `"1"` are
  duplicates of each other (`PrimitiveHashConflates`, `HashConflationScenario`).
- `parse_model_file` builds its missing-file warning from the name `model_name` (ollamab.py:33),
  which is not defined when `ollamab` is imported as a module. The resulting NameError is caught
  (:55-58), so the function still returns None. When the file runs as a script, `model_name` is
  the global assigned at :362 before the call at :366, and the warning is logged normally; the
  result is None either way.

## Model

| member | source | states |
|---|---|---|
| Executor.ShortCount | utils/AsyncExecutor.py:101-104 | `short_task_count` counts the running entries flagged short; never more than the registry size |
| Executor.LongCount | utils/AsyncExecutor.py:96-99 | `long_task_count` counts the running entries flagged long; never more than the registry size |
| Executor.CountsPartition | utils/AsyncExecutor.py:92-104 | every running entry is counted exactly once, as short or as long: short + long = len |
| Executor.CountsAfterInsert | utils/AsyncExecutor.py:58-62 | storing a new running entry raises the count of its own kind by one and leaves the other unchanged |
| Executor.CountsAfterRemove | utils/AsyncExecutor.py:106-108 | popping a running entry lowers the count of its own kind by one and leaves the other unchanged |
| Executor.ShortPromotionStricterThanAdmission | utils/AsyncExecutor.py:453-454 | whenever admission finds the thread pool full for a short task, promotion also finds it full |
| Executor.PoolFull | utils/AsyncExecutor.py:226-228 | the admission test: the task's own kind has reached its capacity, which needs at least that many running tasks |
| Executor.PromotionBlocked | utils/AsyncExecutor.py:452-454 | the promotion test: pid-registry size against the process capacity for a long head, the total running count against the thread capacity for a short head; blocks whenever admission would find the thread pool full |
| Executor.ShortPromotionDivergence | utils/AsyncExecutor.py:226-228 | for every state: a short task is admitted directly while a queued short task is not promoted exactly when short count < thread capacity ≤ short + long count |
| Executor.ShortPromotionBlockedByLongTask | utils/AsyncExecutor.py:452-454 | with 2 threads, one short and one long task running, a short task is admitted directly but a queued short task is not promoted |
| Executor.PromotionDecision | utils/AsyncExecutor.py:441-457 | promotion looks only at the FIFO head: promoted iff the queue is non-empty and the head's unit is not full. StopIteration iff the queue is empty and a latest task is set. Immediate return iff both are empty |
| Executor.ClearLatest | utils/AsyncExecutor.py:304-305 | `_latest_task` is cleared exactly when it names the completed or cancelled id, and is otherwise kept |
| Executor.Normalize | utils/AsyncExecutor.py:290-299 | an exception result, cancellation included, becomes a RuntimeError wrapping it; a value is passed through |
| Executor.WithCallback | utils/AsyncExecutor.py:485-490 | the mailbox entries a drain can deliver are exactly those with a callback, in order |
| Executor.RemoveId | utils/AsyncExecutor.py:517-520 | popping an id from the queued map removes exactly that id, keeps only entries that were queued, and shortens the queue by one when the id was present |
| Executor.RemoveIdAt | utils/AsyncExecutor.py:517-521 | the popped entry sits at one position k and the queue becomes the entries before k followed by those after it, so their FIFO order is kept |
| Executor.AsyncExecutor.constructor | utils/AsyncExecutor.py:141-171 | the executor starts with empty registries, no hook, no latest task, not shut down, with the given capacities |
| Executor.AsyncExecutor.SetNotifyProcessing | utils/AsyncExecutor.py:254-257 | installs the start hook |
| Executor.AsyncExecutor.SubmitTask | utils/AsyncExecutor.py:327-394 | after shutdown: error with nothing changed. Otherwise: the latest task and running entry are stored, and then the hook is called (TypeError without a hook) |
| Executor.AsyncExecutor.ExecuteAsync | utils/AsyncExecutor.py:199-252 | rejected without effect when shut down or the id is running or queued. Pool full: appended at the tail, or rejected when the queue is full. Otherwise exactly one new running entry, true iff a hook exists. Never pushes a pool past its capacity; keeps ids disjoint between the maps |
| Executor.AsyncExecutor.CleanupTask | utils/AsyncExecutor.py:322-325 | removes the id from the process registry and the running registry, and from nothing else |
| Executor.AsyncExecutor.ProcessNextQueuedTask | utils/AsyncExecutor.py:406-477 | the effect of the head-only decision: a promoted head leaves the queue and becomes running and latest whether or not its submission raised; otherwise nothing changes |
| Executor.AsyncExecutor.CleanupAndPromote | utils/AsyncExecutor.py:311-315 | a finished task is cleaned up and exactly one promotion is attempted against the state after cleanup |
| Executor.AsyncExecutor.DoneCallback | utils/AsyncExecutor.py:279-320 | no effect after shutdown. Otherwise: latest cleared; deferred mode mails (callback, normalized result); a done future is cleaned up and one promotion attempted; in direct mode the callback runs iff the id was running and no StopIteration escaped |
| Executor.AsyncExecutor.ProcessCallbacks | utils/AsyncExecutor.py:479-490 | raises after shutdown; in direct mode does nothing; in deferred mode empties the mailbox, delivering exactly the entries with a callback, in order |
| Executor.AsyncExecutor.CancelTask | utils/AsyncExecutor.py:512-538 | a queued id is removed from the queue alone and True is returned; otherwise NotFound without a running entry, AlreadyDone for a done future; latest cleared when it names the id |
| Executor.AsyncExecutor.HasTasks | utils/AsyncExecutor.py:591-594 | running + queued, zero iff both are empty |
| Executor.AsyncExecutor.IsQueued | utils/AsyncExecutor.py:604-607 | true iff some queued descriptor has the id |
| Executor.AsyncExecutor.IsAllTasksDone | utils/AsyncExecutor.py:609-611 | true iff both registries are empty |
| Executor.AsyncExecutor.GetQueuedTaskCount | utils/AsyncExecutor.py:618-621 | the queue's length |
| Executor.AsyncExecutor.GetRunningProcessCount | utils/AsyncExecutor.py:613-616 | the number of registered worker processes |
| Executor.AsyncExecutor.SetConcurrency | utils/AsyncExecutor.py:623-625 | both capacities are overwritten unchecked |
| Executor.AsyncExecutor.WorkerRegister | utils/AsyncExecutor.py:267-268 | the worker records its pid under the task id |
| Executor.AsyncExecutor.WorkerDeregister | utils/AsyncExecutor.py:276-277 | the worker removes its own entry on every exit path |
| Executor.AsyncExecutor.FinishFuture | utils/AsyncExecutor.py:392-393 | the future registered for a running task resolves: only its done flag changes |
| Executor.AsyncExecutor.Shutdown | utils/AsyncExecutor.py:627-666 | idempotent. The first call empties the queue, both registries and the mailbox, clears the latest task, and terminates exactly the registered pids; `has_tasks()` is then 0 |
| MultiKey.IdsOf | utils/MultiKeyDict.py:31-33 | `_keys.get(key, [])`: an absent key has no ids |
| MultiKey.PyIndex | utils/MultiKeyDict.py:35-40 | Python list indexing: a position exists iff -n ≤ index < n, counted from the back for negative indexes |
| MultiKey.AscendingIds | utils/MultiKeyDict.py:69-72 | `sorted(_values)` up to the counter: strictly increasing, only present ids, and every present id |
| MultiKey.AscendingCount | utils/MultiKeyDict.py:69-72 | iteration visits each present id exactly once |
| MultiKey.InsertionIteratedLast | utils/MultiKeyDict.py:16-20 | a new insertion is iterated after every earlier one: iteration order is insertion order |
| MultiKey.EntriesWithinCounter | utils/MultiKeyDict.py:17-19 | ids come from the counter and are never reused, so there are at most `_counter` entries |
| MultiKey.KeysFewerThanEntries | utils/MultiKeyDict.py:75-85 | each key owns at least one entry, so `len(d)` ≤ `total_entries()` |
| MultiKey.NoKeysNoEntries | utils/MultiKeyDict.py:75-85 | the dictionary has no keys iff it has no entries |
| MultiKey.AllValues | utils/MultiKeyDict.py:31-33 | the values stored under a key's ids, position by position |
| MultiKey.SetKeepsRep | utils/MultiKeyDict.py:16-20 | an insertion keeps the invariant, adds one entry, appends the value to its key's values and leaves every other key's values alone |
| MultiKey.Pop | utils/MultiKeyDict.py:93 | `ids.pop(p)`: position p is gone and the rest keep their order |
| MultiKey.RemoveKeepsRep | utils/MultiKeyDict.py:87-97 | removing one id keeps the invariant, removes exactly one entry and leaves every other key's values alone |
| MultiKey.MultiKeyDict.constructor | utils/MultiKeyDict.py:7-13 | empty indexes, counter 0 |
| MultiKey.MultiKeyDict.Set | utils/MultiKeyDict.py:16-20 | counter + 1 becomes the new id in both indexes and is appended to the key's list; `total_entries` grows by one; `get_all(key)` gains the value at its end; other keys unchanged |
| MultiKey.MultiKeyDict.GetAll | utils/MultiKeyDict.py:31-33 | the key's values in the order of its ids, each stored with that key; empty for an absent key |
| MultiKey.MultiKeyDict.GetById | utils/MultiKeyDict.py:23-26 | `d[id]`: the value of a present id, which was issued by the counter and is listed under its key; KeyError otherwise |
| MultiKey.MultiKeyDict.Latest | utils/MultiKeyDict.py:42-46 | `latest(key)`, also `d[key]` (:27-29): the last of `get_all(key)`; KeyError iff it is empty |
| MultiKey.MultiKeyDict.Oldest | utils/MultiKeyDict.py:48-52 | the first of `get_all(key)`; KeyError iff it is empty |
| MultiKey.MultiKeyDict.Get | utils/MultiKeyDict.py:54-59 | `latest(key)`, or the default exactly when the key has no values |
| MultiKey.MultiKeyDict.GetByIndex | utils/MultiKeyDict.py:35-40 | the index-th value of `get_all(key)` with Python indexing; IndexError iff the index is out of range, including an absent key |
| MultiKey.MultiKeyDict.ContainsKey | utils/MultiKeyDict.py:62-66 | a string key is contained iff it has values |
| MultiKey.MultiKeyDict.ContainsId | utils/MultiKeyDict.py:62-66 | an id is contained iff `d[id]` succeeds; its key is then contained |
| MultiKey.MultiKeyDict.Len | utils/MultiKeyDict.py:75-77 | the number of distinct keys: at most `total_entries()`, and zero iff there are no entries |
| MultiKey.MultiKeyDict.SizeKey | utils/MultiKeyDict.py:79-81 | the length of `get_all(key)`; positive iff the key is contained |
| MultiKey.MultiKeyDict.TotalEntries | utils/MultiKeyDict.py:83-85 | all entries, at most the number of insertions |
| MultiKey.MultiKeyDict.Remove | utils/MultiKeyDict.py:87-97 | KeyError for an absent key, IndexError for an out-of-range index, otherwise the id at that position (the newest by default) leaves both indexes and the key goes with its last id; one entry fewer; other keys unchanged |
| MultiKey.MultiKeyDict.Clear | utils/MultiKeyDict.py:99-102 | both indexes emptied; the counter is kept, so ids are never reused |
| MultiKey.MultiKeyDict.Iterate | utils/MultiKeyDict.py:69-72 | each entry exactly once, in ascending id order |
| Unique.NatToString | utils/UniqueQueue.py:30-31 | `str` of a non-negative int: a non-empty digit string |
| Unique.IntToString | utils/UniqueQueue.py:30-31 | `str` of an int: non-empty, starting with `-` exactly for negatives |
| Unique.ParseNatToString | utils/UniqueQueue.py:30-31 | the decimal text of a non-negative int reads back to it |
| Unique.IntToStringRoundTrip | utils/UniqueQueue.py:30-31 | the text of any int reads back to it |
| Unique.PrimitiveHashConflates | utils/UniqueQueue.py:28-31 | `_get_hash` gives 1 and "1", True and "True", -7 and "-7" the same key |
| Unique.PrimitiveCollidesWithItsText | utils/UniqueQueue.py:28-31 | every int, bool or string gets the same key as the string holding its `str` |
| Unique.IntHashesDistinct | utils/UniqueQueue.py:28-31 | two ints share a key iff they are equal |
| Unique.KeyedQueue.constructor | utils/UniqueQueue.py:10-12 | an empty queue with an empty seen-set |
| Unique.KeyedQueue.Put | utils/UniqueQueue.py:14-19 | a fresh key is recorded and the item appended at the tail; a seen key leaves queue and seen-set unchanged; an item a WeakSet cannot hold raises TypeError; the seen-set stays exactly the keys of the queued items |
| Unique.KeyedQueue.Get | utils/UniqueQueue.py:21-26 | the head is returned and removed, and its key leaves the seen-set |
| Unique.KeyedQueue.Contains | utils/UniqueQueue.py:37-39 | `item in q` iff some queued item has the same key |
| Unique.NewUniqueQueue | utils/UniqueQueue.py:7-12 | a UniqueQueue (SafeUniqueQueue alike) keys items by `_get_hash` and admits everything |
| Unique.NewObjectIdQueue | utils/UniqueQueue.py:110-136 | ObjectIDUniqueQueue keys items by `id(item)` |
| Unique.NewUniversalQueue | utils/UniqueQueue.py:83-108 | UniversalUniqueQueue keys objects by identity; instances of user classes are admitted, ints, strings and bools raise TypeError |
| Unique.HashConflationScenario | utils/UniqueQueue.py:14-19 | after putting the int 1, putting the string "1" is dropped |
| Text.BeforeFirst | models/models.py:189 | `split(c)[0]`: a separator-free prefix ending right before the first separator, or the whole text |
| Text.AfterLast | models/models.py:190 | `split(c)[-1]`: a separator-free suffix starting right after the last separator, or the whole text |
| Text.Replace | ollamab.py:42 | single-character `replace`: same length, every `a` becomes `b`, nothing else changes |
| Text.SplitOnceRejoins | models/models.py:189-190 | with a single separator, first piece + separator + last piece is the text |
| Text.AfterLastOfTail | models/models.py:179 | the piece after the last separator is the separator-free tail |
| Text.BeforeFirstOfHead | models/models.py:179 | the piece before the first separator is the separator-free head |
| Text.Md5FromZipName | models/models.py:179 | the checksum read from an archive name contains neither `_` nor `.` |
| Text.Md5FromZipNameRoundTrip | models/models.py:179 | an archive named `<stem>_<md5>.<ext>` yields exactly `<md5>` |
| Registry.AppendModel | models/models.py:29-31 | `append_model`: the name is added only if absent, so the list stays duplicate-free; other fields unchanged |
| Registry.RemoveFirst | models/models.py:36 | `list.remove`: one name fewer when present, no change when absent, no other name lost |
| Registry.RemoveFirstAt | models/models.py:36 | `list.remove(x)` drops the occurrence at position k with no x before it (the first), and the names before and after k keep their order |
| Registry.RemoveModel | models/models.py:34-36 | `remove_model`: a listed name is removed; an unlisted one changes nothing |
| Registry.RemoveUndoesAppend | models/models.py:29-36 | removing a name just appended restores the blob |
| Registry.AttachBlob | models/models.py:155-161 | one loop step: the blob exists afterwards (created empty if new), lists the model and keeps its old names; other blobs unchanged |
| Registry.AttachAll | models/models.py:154-161 | the whole loop: every blob the model names exists and lists the model |
| Registry.AttachAllEffect | models/models.py:154-161 | after the loop every named blob exists and lists the model; other blobs unchanged; no name leaves a list |
| Registry.AttachKeepsBackReferences | models/models.py:153-161 | storing a model with blobs keeps every back-reference and adds its own |
| Registry.StoreKeepsBackReferences | models/models.py:153 | storing a model without blobs keeps the back-references |
| Registry.PrepareStatus | models/models.py:175-180 | an existing archive sets the size and, for a finished backup without checksum, the checksum from the name; otherwise the status is unchanged |
| Registry.Placeholder | models/models.py:185-194 | placeholder for an unknown name: llm is the part before the first `:` (the whole name without one), version the part after the last `:` (or `latest`), status attached |
| Registry.PlaceholderSplitsReference | models/models.py:189-190 | for a `name:tag` reference, llm `:` version rebuilds the name |
| Registry.Merged | models/models.py:150-153 | a None backup status is replaced by the stored model's; a given one is kept |
| Registry.ModelData.constructor | models/models.py:86-93 | the bare instance before `_init` |
| Registry.ModelData.Init | models/models.py:61-71 | `call_once`-wrapped `_init` (:104-111): empties the registries the first time; later calls change nothing |
| Registry.ModelData.SetModel | models/models.py:146-162 | stored under its name with merged status; every blob it names registered and listing it; blobs None: stored, then TypeError, no notification |
| Registry.ModelData.AttachBlobs | models/models.py:154-161 | the loop's result equals the blob-by-blob attachment |
| Registry.ModelData.DeleteModel | models/models.py:164-169 | the entry goes if present; notified either way |
| Registry.ModelData.SetBackupStatus | models/models.py:171-201 | unknown name: placeholder stored and announced as a new model; known name: status replaced and announced; either way the name's status is the prepared one |
| Registry.ModelData.SetBlob | models/models.py:269-280 | an existing blob takes size, md5 and path and keeps its models; a new one is stored as given |
| Registry.ModelData.BlobSize | models/models.py:286-294 | 0 for a missing blob or a falsy size, else the stored size |
| Registry.ModelData.SetInitialized | models/models.py:246-251 | stores the flag and notifies |
| Registry.NewModelData | models/models.py:86-93 | the singleton's first construction runs `_init` once |
| Legacy.CompletedStatus | models.py:125-128 | a finished backup takes its checksum from the archive name; without a name, AttributeError; unfinished: unchanged |
| Legacy.CompletedStatusReadsChecksum | models.py:125-128 | for `<stem>_<md5>.zip` the stored checksum is exactly md5 |
| Legacy.ModelData.constructor | models.py:63-68 | empty registry, not initialized |
| Legacy.ModelData.AddModel | models.py:103-107 | stored under its name, replacing any previous; notified |
| Legacy.ModelData.DeleteModel | models.py:109-114 | a present model is removed and notified; an absent one changes nothing and sends nothing |
| Legacy.ModelData.UpdateModel | models.py:116-119 | the same store as add, announced as an update |
| Legacy.ModelData.UpdateBackupStatus | models.py:121-131 | AttributeError first, then KeyError for an unknown model, both without effect; otherwise only that model's status changes and is notified |
| Legacy.ModelData.SetInitialized | models.py:151-155 | stores the flag and notifies |
| Manifest.BlobName | ollamab.py:42 | a digest's blob name has no `:` and the same length |
| Manifest.RawDigests | ollamab.py:39-48 | config digest first when present, then the layers' digests: at most one more than the layers |
| Manifest.LayerDigests | ollamab.py:44-48 | every layer's digest, layers without one skipped: as many as the layers when all have one, never more |
| Manifest.LayerBlobNames | ollamab.py:44-48 | the layers' digests, in order, skipping layers without one, each rewritten |
| Manifest.ParseModelFile | ollamab.py:17-58 | None for an empty path, a missing or unreadable file; otherwise the path unchanged and the blob names of config and layer digests, in order |
| Manifest.ParsedDigestsShape | ollamab.py:39-48 | at most one digest per layer plus the config's, none containing `:` |
| Manifest.BlobNameOfDigest | ollamab.py:42 | `algorithm:encoded` is stored as `algorithm-encoded` |
| Manifest.BlobNamesDistinct | ollamab.py:42-48 | distinct digests of one algorithm name distinct blob files |
| Manifest.ArchiveStem | ollamab.py:147-150 | `parent_` (when non-empty) + leaf; IndexError with fewer than two path components |
| Manifest.CopyArchiveName | ollamab.py:147-150 | `copy_and_zip_model` without a name: stem + `.zip` |
| Manifest.ZipArchiveName | ollamab.py:182-185 | `zip_model` without a name: `backup` + stem + `.zip`, no underscore after `backup` |
| Manifest.ArchiveName | ollamab.py:182-185 | a non-empty given name wins; otherwise prefix + stem + extension, or the stem's IndexError |
| Manifest.PaqArchiveName | ollamab.py:233-238 | `backup_` + stem + `.zpaq`; None exactly when no name is given and the stem fails (the handler at :298-301) |
| Manifest.DefaultNamesShareStem | ollamab.py:147-150 | copy, zip and paq default names are the same stem with `""`/`.zip`, `backup`/`.zip`, `backup_`/`.zpaq` |
| Manifest.StemOfModelAndTag | ollamab.py:184-185 | for `.../model/tag` the stem is `model_tag`, or `tag` for an empty model component |
| Manifest.CleanTempFiles | ollamab.py:328-339 | the directory and everything under it go only when it exists and is not the models directory; nothing else is touched |

## Left out

- The event loop, thread and process pools, `run_coroutine_threadsafe` and the `Manager`
  objects are concurrency machinery. A future is its `done` flag (`FinishFuture`), and the worker
  process's registry writes are the explicit events `WorkerRegister` and `WorkerDeregister`. The
  event loop is taken to be ready whenever the executor is not shut down.
- The locks are not modelled. Every method runs atomically, so `SafeUniqueQueue` is
  `UniqueQueue`.
- Executor.AsyncExecutor.CancelTask: the branch for a still-running task is not modelled and
  returns `RunningTask` without effect. That branch kills processes in a retry loop with sleeps,
  starts the cancel watchdog thread and polls psutil, all of which depend on OS timing.
- `ProcessTerminator` is foreign OS calls. `Shutdown` records the pids it would terminate.
- `_restart_process_pool` depends on pool internals, and the broken-pool check before a
  promotion (:459-460) is not modelled.
- Executor.AsyncExecutor.DoneCallback: an exception raised by a user callback is not modelled.
- Callables, their arguments, callbacks and the hook are opaque numbers. Results are a value, an
  exception, or a wrapped exception.
- `get_task_status` and `is_task_active` are queries the core does not need.
- Queue `maxsize` blocking and the `unfinished_tasks` bookkeeping of `queue.Queue` are left out.
  The model covers `_put`, `_get` and `__contains__`, which do not involve them.
- Unique.HashOf: MD5 is an uninterpreted function parameter, and `str()` of an arbitrary object is
  an optional text (None where `str` raises).
- Unique.HashOf: floats are not modelled, because floating point is out of scope.
- A WeakSet entry that disappears when its object is garbage-collected is not modelled, and
  neither is a custom `__eq__`.
- A queued item mutated after `put` so that its hash changes (after which `_get` would raise
  KeyError) is not modelled. Items are values.
- Blobs and statuses are values. Both registries mutate the caller's model or status object
  (`model.bk_status = ...`, `status.size`, `status.zip_md5`), and `Blob.append_model` mutates a
  shared blob in place. The model captures the stored result, not the aliasing.
- Observer registration, `getattr` dispatch and `deepcopy` are not modelled; the `notes` log
  records which notification is sent and with what.
- `process_event`, `get_model`, `get_blob`, `get_backup_status`, `exist_model_backup` and the
  `models`/`blobs` properties are plain reads or copies.
- Registry.ModelData.BlobSize: the human-readable branch of `get_blob_size` is left out, because
  it formats floating-point sizes as text.
- Registry.PrepareStatus: `os.path.exists` and `os.path.getsize` are the parameter `onDisk`, the
  archive's size when it exists.
- Registry.ModelData.Init: the `call_once` lock and `hasattr` probing are not modelled; the
  `_called` attribute is the field `called`.
- Executor.AsyncExecutor.constructor: `AsyncExecutor` is a singleton (utils/AsyncExecutor.py:133-146);
  a later construction returns the existing instance with its state (even one already shut down,
  which then rejects every task) and ignores the new capacities and callback mode. The model
  builds a fresh executor each time. `ThreadPoolExecutor(max_workers=0)` raises ValueError (:147),
  and the default `int((os.cpu_count()*2)//3)` (:141) is 0 on a one-CPU machine; the model
  accepts every capacity and does not model that error.
- Unique.NewUniversalQueue: `Obj` stands for an instance of a user-defined class. None, floats,
  bytes, tuples, lists and dicts cannot be weakly referenced either, so `WeakSet.add` raises
  TypeError for them (utils/UniqueQueue.py:94); such values are not modelled.
- Legacy.ModelData.constructor: `models.py` runs `__init__` on every `ModelData()` call, which
  resets the singleton's registry. The model constructs a fresh object instead.
- Manifest.ParseModelFile: the JSON decoding and the file read are the `FileState` parameter. A
  manifest whose digest is not a string, which raises and yields None, is not modelled.
- Manifest.ArchiveStem: `os.path.relpath` and the split on `os.sep` are not modelled; the path
  components are the parameter `seps`.
- Manifest.PaqArchiveName: only the name derivation is modelled. The zpaq subprocess and the file
  copying, zipping and moving in `ollamab.py` are I/O.
- Manifest.CleanTempFiles: the file system is a set of paths, and `rmtree` removes the directory
  and the paths under `<dir>/`. `zip_dir` is assumed to be a real directory: for a regular file
  (NotADirectoryError) or a symlink (OSError) `rmtree` raises, which is not modelled, and neither
  are permission errors.
