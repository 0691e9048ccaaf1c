# meta-job-list, modelled in Dafny

This project models the two classes at the heart of meta-job-list. Both are
replicated objects that peers keep in sync by exchanging updates.

- `MetaJobList` is a multiplexer. It owns two named sub-models: a job list
  (`"JobList"`) and an acknowledgment ledger (`"Meta"`). Every update a
  sub-model emits leaves tagged as `[name, data]`. Every update that arrives
  is untagged and fed to the sub-model it names. While that sub-model takes
  it in, its own notification is not relayed back out. The merged history
  is the tagged histories of both sub-models, sorted by timestamp and then
  by source id.
- `CappedJobList` is the threshold collector built on the multiplexer.
  When the local job list reports a job done, it writes its own
  acknowledgment into the ledger under its peer id. When a ledger entry
  reaches `threshold` peers, it deletes the job. After that, job-list
  updates for the job are accepted (the call returns true) and dropped. A
  periodic sweep clears entries at or over the threshold whose newest
  acknowledgment is more than 2000 ms old.

Files:

- `wire.dfy` (`Wire`): JSON values and updates (data, timestamp, source id,
  remaining slots).
- `order.dfy` (`HistoryOrder`): JavaScript string comparison, the history
  comparator, and the stable sort the history uses.
- `parts.dfy` (`Parts`): what the multiplexer and the collector rely on from
  the two sub-models.
  - The job list is the ids it holds.
  - The ledger is job id -> peer id -> acknowledgment. Writing an object
    merges it peer by peer. Writing `null` clears the entry.
  - Each sub-model keeps a log of the updates it took in. Its history is
    that log, filtered by a watermark vector.
- `meta_job_list.dfy` (`MetaJobLists`): tagging and untagging, routing of an
  incoming update, the relay of sub-model notifications, and class
  `MetaJobList`.
- `capped_job_list.dfy` (`CappedJobLists`): admission of incoming updates,
  the deferred tasks, the sweep, and class `CappedJobList`. It also holds
  the three-peer scenario of the repository's test.

Modelling choices:

- Exceptions are an outcome, `Threw`. `applyUpdate` returns true for
  `Applied` and `Suppressed`, false for `Rejected`, and throws for `Threw`.
- Work deferred with `setImmediate` goes into a `pending` queue. `RunTask`
  runs the head of the queue.
- The wall clock is a `now` argument.
- `CappedJobList` extends `MetaJobList` in the source. Here the collector
  holds its multiplexer as `mux`.

Behaviour of the code worth knowing:

- An update tagged with a string that does not name a registered sub-model
  is not ignored: the lookup of the sub-model throws (`Route` gives
  `Threw`). A two-character string payload splits into a one-character
  name and data, and so also throws. A name that is not a string is turned
  into a property key by JavaScript, which the model does not do (see
  "Left out").
- The sweep does not compare the oldest and newest acknowledgment. It
  compares `now` with the newest acknowledgment timestamp, where the scan
  for the newest starts from 0 (`Stale`, `NewestAck`).
- Updates to a collected job are dropped only on the job-list side; ledger
  updates for it are always applied (`MetaNeverSuppressed`).

## Model

| member | source | states |
|---|---|---|
| `MetaJobLists.Wrap` | src/meta-job-list.ts:269-274 | tagging changes only the data slot; timestamp, source id and the rest of the update are kept |
| `MetaJobLists.Unwrap` | src/meta-job-list.ts:126-134 | a payload is malformed exactly when it is an array or string that is not two long, cannot be sliced exactly when it is neither, and a split keeps the timestamp, source id and rest of the update |
| `MetaJobLists.UnwrapWrap` | src/meta-job-list.ts:126-134 | untagging a tagged update gives back the sub-model name and the original update |
| `MetaJobLists.WrapUnwrap` | src/meta-job-list.ts:126-134 | for array payloads, an update splits into name and inner update exactly when it is that inner update tagged with that name |
| `MetaJobLists.Route` | src/meta-job-list.ts:125-144 | routing keeps the set of sub-model names; the update is applied exactly when it splits and its name is a registered sub-model, and then only that sub-model changes; it throws exactly when the payload cannot be sliced or the name is not a registered sub-model; otherwise nothing changes |
| `MetaJobLists.RouteWrapped` | src/meta-job-list.ts:125-144 | an update tagged with a registered name is applied to that sub-model with its original data, and no other sub-model changes |
| `MetaJobLists.RouteRejects` | src/meta-job-list.ts:125-144 | `applyUpdate` returns false exactly for a payload that is not two long; whenever it does not apply, every sub-model is unchanged; it never reports a drop |
| `MetaJobLists.RelayOutput` | src/meta-job-list.ts:250-261 | a listener call relays at most one event, and relays nothing exactly for an update of the sub-model being fed |
| `MetaJobLists.RelayOutputSpec` | src/meta-job-list.ts:250-261 | a new update of the sub-model being fed is not relayed, a removal always is; what is relayed untags to the sub-model name and the original update |
| `MetaJobLists.WrapAll` | src/meta-job-list.ts:150-152 | every item of a tagged history untags to the sub-model name and the original item |
| `MetaJobLists.Gathered` | src/meta-job-list.ts:146-153 | every gathered item is tagged with the name of one of the gathered sub-models |
| `MetaJobLists.Tagged` | src/meta-job-list.ts:250-256 | each local change of a sub-model is relayed as one update that untags to the sub-model name and that change |
| `MetaJobLists.TaggedSnoc` | src/meta-job-list.ts:250-256 | one more local change adds one more relayed update, at the end |
| `MetaJobLists.GatheredSnoc` | src/meta-job-list.ts:149-153 | gathering one more sub-model appends its tagged history |
| `MetaJobLists.GatheredMembers` | src/meta-job-list.ts:149-153 | the gathered history holds exactly the tagged items of the sub-models' histories |
| `MetaJobLists.WrapAllMembers` | src/meta-job-list.ts:150-152 | the tagged items are exactly the originals, tagged |
| `MetaJobLists.GatheredLength` | src/meta-job-list.ts:149-153 | the gathered history is as long as the two sub-model histories together |
| `MetaJobLists.MergedHistory` | src/meta-job-list.ts:146-164 | the sorted merged history has that length and holds exactly the tagged sub-model items |
| `MetaJobLists.MergedHistoryAll` | src/meta-job-list.ts:146-164 | the same for every item at once |
| `MetaJobLists.PushTagged` | src/meta-job-list.ts:150-152 | the inner `forEach` pushes exactly the tagged updates, in order, onto the history |
| `MetaJobLists.MetaJobList.constructor` | src/meta-job-list.ts:91-99 | a new multiplexer holds an empty job list and an empty ledger, both with the multiplexer's id, and has emitted nothing |
| `MetaJobLists.MetaJobList.Add` | src/meta-job-list.ts:247-267 | registering a sub-model stores it under its name with the multiplexer's id, as the constructor does for the job list and the ledger (src/meta-job-list.ts lines 94-99) |
| `MetaJobLists.MetaJobList.Relay` | src/meta-job-list.ts:250-261 | the listener emits exactly what `RelayOutput` says for the current disabled name |
| `MetaJobLists.MetaJobList.ApplyUpdate` | src/meta-job-list.ts:125-144 | the outcome and the new sub-models are those of `Route`; nothing is emitted (no echo), the clock is untouched, and the disabled name is cleared again |
| `MetaJobLists.MetaJobList.LocalUpdate` | src/meta-job-list.ts:263-265 | a local change gets this replica's id and a timestamp above every earlier one and not below `now`; the sub-model takes it in and it is emitted tagged |
| `MetaJobLists.MetaJobList.DeleteJob` | src/meta-job-list.ts:198-200 | `delete` removes the job from the job list; the ledger, the job list's id and log, and every other sub-model are as before |
| `MetaJobLists.MetaJobList.History` | src/meta-job-list.ts:146-164 | the history is sorted by the comparator, is a permutation of the gathered tagged histories, has their total length, and holds exactly their tagged items |
| `MetaJobLists.MetaJobList.ToJSON` | src/meta-job-list.ts:166-172 | the snapshot has exactly the two sub-model names as keys, each mapped to that sub-model's snapshot |
| `HistoryOrder.LexLess` | src/meta-job-list.ts:157-161 | a string never sorts before an equal one, and a proper prefix sorts before the longer string |
| `HistoryOrder.LexLessIrreflexive` | src/meta-job-list.ts:157-161 | no string sorts before itself |
| `HistoryOrder.LexLessAsymmetric` | src/meta-job-list.ts:157-161 | two strings never sort before each other both ways |
| `HistoryOrder.LexLessTotal` | src/meta-job-list.ts:157-161 | two different strings are always ordered one way or the other |
| `HistoryOrder.LexLessTransitive` | src/meta-job-list.ts:157-161 | the string order is transitive |
| `HistoryOrder.Compare` | src/meta-job-list.ts:154-163 | the comparator returns 0 exactly for equal timestamps and equal source ids |
| `HistoryOrder.CompareAntisymmetric` | src/meta-job-list.ts:154-163 | comparing a with b is negative exactly when comparing b with a is positive |
| `HistoryOrder.CompareMeansInOrder` | src/meta-job-list.ts:154-163 | the comparator says "not after" exactly when timestamps rise, or are equal and source ids do not fall |
| `HistoryOrder.InOrderTotal` | src/meta-job-list.ts:154-163 | any two updates are in order one way or the other |
| `HistoryOrder.InOrderTransitive` | src/meta-job-list.ts:154-163 | the order is transitive |
| `HistoryOrder.SortedPairwise` | src/meta-job-list.ts:154-163 | in a sorted history every earlier item is in order with every later one |
| `HistoryOrder.SortedCons` | src/meta-job-list.ts:154-163 | an item in order with the head of a sorted sequence can go in front |
| `HistoryOrder.Insert` | src/meta-job-list.ts:154-163 | inserting keeps the sequence sorted and adds exactly the one item |
| `HistoryOrder.SortHistory` | src/meta-job-list.ts:154-163 | the sort result is sorted and a permutation of its input |
| `HistoryOrder.SortHistoryKeeps` | src/meta-job-list.ts:154-163 | sorting keeps the length and the set of items |
| `HistoryOrder.SortHistoryOrder` | src/meta-job-list.ts:154-163 | in the sorted history timestamps never go down, and on equal timestamps source ids never go down |
| `Parts.Count` | src/capped-job-list.ts:36-39 | the count of a job is the number of peers that acknowledged it, and it is 0 exactly when there is no entry or the entry is empty |
| `Parts.SetEntry` | src/capped-job-list.ts:69-71 | (also the sweep's write at lines 96-98) a ledger write changes no other entry; `null` removes the entry; an object leaves the entry with the old acknowledgers plus the object's peers; any other value changes nothing |
| `Parts.SetEntryMerges` | src/capped-job-list.ts:69-71 | writing an acknowledgment object adds its peers to the entry, keeps the other peers' records, never lowers the count, and changes no other entry |
| `Parts.SetEntryClears` | src/capped-job-list.ts:96-98 | writing `null` brings the count to 0 and changes no other entry |
| `Parts.SetEntryIdempotent` | src/capped-job-list.ts:69-71 | writing the same value twice gives the ledger writing it once gives |
| `Parts.MetaKey` | src/capped-job-list.ts:70 | a ledger update has a key exactly when its data is a two-element array whose first element is a string |
| `Parts.ApplyMeta` | src/meta-job-list.ts:139 | a ledger update without a `[key, value]` shape changes nothing, and one with it changes no entry but its key's |
| `Parts.JobKey` | src/capped-job-list.ts:51-52 | the job id is read from an array, string or object payload only: from an array exactly when its first element is a string, and it is that string; from a string exactly when it is not empty, and it is the first character; from an object exactly when its `"0"` field is a string |
| `Parts.ApplyJobList` | src/meta-job-list.ts:139 | after a job-list update the named job is present, and the jobs already there keep their places |
| `Parts.RemoveJob` | src/meta-job-list.ts:198-200 | deletion removes exactly the job and keeps the others, and deleting a job that is not there changes nothing |
| `Parts.RemoveJobAppend` | src/meta-job-list.ts:198-200 | deletion keeps the order of the other jobs: deleting from two lists put together is deleting from each and putting the results together |
| `Parts.Take` | src/meta-job-list.ts:139 | a sub-model taking in an update keeps its id and kind and appends the update to its log |
| `Parts.TakeIdempotent` | src/meta-job-list.ts:139 | taking the same update in twice leaves the jobs or the ledger as taking it in once |
| `Parts.NewerThan` | src/meta-job-list.ts:150 | a sub-model's history since a watermark vector holds exactly the logged updates newer than the vector |
| `Parts.PartHistory` | src/meta-job-list.ts:150 | a sub-model's history holds exactly its logged updates newer than the watermark vector, is no longer than its log, and with an empty vector is the whole log |
| `Parts.Snapshot` | src/meta-job-list.ts:166-172 | the job list's snapshot lists its job ids in order; the ledger's has exactly its job ids as keys, each mapped to that entry's acknowledgment records |
| `Wire.ToValue` | src/capped-job-list.ts:69-71 | a done update stored as an acknowledgment is an array with the update's data in slot 0, its timestamp in slot 1 (the slot the sweep reads) and its source id in slot 2 |
| `Wire.TimestampOf` | src/capped-job-list.ts:91 | a stored acknowledgment yields a timestamp only from a numeric slot 1 |
| `CappedJobLists.ChangeTasks` | src/capped-job-list.ts:74-80 | a ledger change queues a deletion of the job exactly when its count has reached the threshold, and nothing else |
| `CappedJobLists.NotifiedCount` | src/capped-job-list.ts:53 | the count for a job id is its number of acknowledgers, and 0 when no job id can be read |
| `CappedJobLists.Admit` | src/capped-job-list.ts:41-60 | admission keeps the set of sub-model names and changes nothing unless it applies; a job-list update with a `null` payload throws; with both sub-models present it throws exactly then or when `Route` throws; an update neither dropped nor thrown is routed as the multiplexer routes it |
| `CappedJobLists.ChangedEntry` | src/capped-job-list.ts:74-80 | (the handler registered at line 28) a ledger change is reported only for a ledger-tagged update whose data has a `[key, value]` shape, and for that key |
| `CappedJobLists.MetaNeverSuppressed` | src/capped-job-list.ts:50-59 | a ledger update is never dropped: it is routed as the multiplexer routes it, and applied |
| `CappedJobLists.AckArrives` | src/capped-job-list.ts:50-59 | an incoming acknowledgment object is applied, merges into the entry it names, and counts as a change to that entry |
| `CappedJobLists.JobArrives` | src/capped-job-list.ts:50-59 | a job-list update for a job below the threshold reaches the job list and changes no ledger entry |
| `CappedJobLists.SuppressionSpec` | src/capped-job-list.ts:50-56 | an update is dropped exactly when it is a job-list update whose job has reached the threshold, and a dropped update changes nothing |
| `CappedJobLists.MalformedRejected` | src/capped-job-list.ts:44-48 | a payload that is not two long returns false and changes nothing |
| `CappedJobLists.NoResurrection` | src/capped-job-list.ts:50-56 | once a job has reached the threshold, a job-list update for it is dropped and changes nothing |
| `CappedJobLists.Stale` | src/capped-job-list.ts:89-96 | since the scan for the newest acknowledgment starts from 0, an entry can be stale only once `now` is past 2000; that it is exactly the sweep's test `now - maxTs > 2000` is `StaleIffNewestOld` |
| `CappedJobLists.SweepWaitsForGrace` | src/capped-job-list.ts:89-98 | while `now` is at most 2000, a sweep clears nothing |
| `CappedJobLists.StaleLater` | src/capped-job-list.ts:89-96 | an entry that is stale at one time stays stale at every later time |
| `CappedJobLists.SweptBut` | src/capped-job-list.ts:85-100 | midway through a sweep, the entries not yet looked at are all still there, no entry is added, and every kept entry is unchanged |
| `CappedJobLists.Swept` | src/capped-job-list.ts:83-100 | a sweep adds no entry, changes no entry it keeps, and keeps every entry below the threshold |
| `CappedJobLists.SweepStep` | src/capped-job-list.ts:85-100 | looking at one more entry clears it when it is sweepable and leaves the ledger alone otherwise |
| `CappedJobLists.SweepSafety` | src/capped-job-list.ts:88-98 | the sweep clears an entry exactly when it is at or over the threshold and stale, and keeps every other entry unchanged |
| `CappedJobLists.NewestAck` | src/capped-job-list.ts:89-95 | the scan returns 0 or a timestamp present in the entry, and no numeric timestamp of the entry is above it |
| `CappedJobLists.StaleIffNewestOld` | src/capped-job-list.ts:89-96 | the test `now - maxTs > 2000` holds exactly when every acknowledgment, and the starting value 0, is more than 2000 ms old |
| `CappedJobLists.SweepCleared` | src/capped-job-list.ts:96-98 | clearing a sweepable entry adds exactly its `null` write to those of the entries cleared before |
| `CappedJobLists.SweepLogged` | src/capped-job-list.ts:96-98 | clearing a sweepable entry appends its `null` write to the ledger log, keeps the log as it stood when the sweep began, adds the tagged write to what was emitted, and, since the write draws a fresh timestamp, the sweep's writes keep strictly rising timestamps above the clock's reading at the start |
| `CappedJobLists.StampedSnoc` | src/capped-job-list.ts:97 | an update drawn from the clock after a run of local updates extends their strictly rising timestamps |
| `CappedJobLists.LedgerUpdate` | src/capped-job-list.ts:70 | `set(j, v)` logs an update whose data has the `[key, value]` shape with key `j` and value `v`, with this replica's id and the given timestamp |
| `CappedJobLists.LedgerWrite` | src/meta-job-list.ts:250-256 | a local ledger write leaves the multiplexer as that logged update tagged by `wrap` (lines 269-274), reported as a change to that entry |
| `CappedJobLists.NullWritesSnoc` | src/capped-job-list.ts:96-98 | one more `null` write for an entry not yet written extends the writes to that entry |
| `CappedJobLists.NullWritesCount` | src/capped-job-list.ts:85-98 | a sweep logs exactly as many `null` writes as entries it clears |
| `CappedJobLists.CappedJobList.constructor` | src/capped-job-list.ts:22-30 | an absent option takes its default: generated id, threshold 1, sweep interval 5000 ms; given values are kept; the new multiplexer holds an empty job list and an empty ledger with empty logs, both carrying its id, its clock is 0, it has emitted nothing, and nothing is queued |
| `CappedJobLists.CappedJobList.GetNotifiedCount` | src/capped-job-list.ts:36-39 | the count is the number of peers in the job's entry, 0 without one |
| `CappedJobLists.CappedJobList.ApplyUpdate` | src/capped-job-list.ts:41-60 | the outcome and new sub-models are those of `Admit`; an applied ledger update queues a deletion when its entry reached the threshold; nothing is emitted |
| `CappedJobLists.CappedJobList.OnJobDone` | src/capped-job-list.ts:62-72 | a done job queues exactly the writing of this replica's acknowledgment |
| `CappedJobLists.CappedJobList.OnMetaChanged` | src/capped-job-list.ts:74-80 | a changed entry queues the job's deletion exactly when the entry has reached the threshold |
| `CappedJobLists.CappedJobList.SetMeta` | src/capped-job-list.ts:70 | a local ledger write has the ledger take in the write with a fresh timestamp, above the old clock and not below `now`, so its entry and log change and no other sub-model does; the tagged write is emitted, and the change handling fires |
| `CappedJobLists.CappedJobList.RunTask` | src/capped-job-list.ts:69-78 | an acknowledgment task has the ledger take in this replica's record of the done update with a fresh timestamp, above the old clock and not below `now` (entry and log), leaves the job list alone, emits that write tagged, and may queue the deletion; a deletion task removes the job from the job list, leaves the ledger sub-model alone, emits nothing and keeps the clock |
| `CappedJobLists.CappedJobList.ClearStale` | src/capped-job-list.ts:96-98 | clearing one sweepable entry moves the sweep one entry on: the ledger stays in step with `SweptBut`, the job list is untouched, the ledger log and what is emitted gain exactly the entry's `null` write, and the sweep's writes keep strictly rising timestamps above the clock's reading at the start and not above its new reading |
| `CappedJobLists.CappedJobList.Cleanup` | src/capped-job-list.ts:83-100 | one sweep tick leaves the ledger as `Swept` says and the job-list sub-model as it was; the ledger log gains one `null` write per cleared entry and nothing else, with strictly rising timestamps above the clock's reading before the sweep and none above its reading after, and exactly those writes are emitted, tagged; with a positive threshold nothing is queued, and the clock never moves back |
| `CappedJobLists.ReceiveAck` | src/capped-job-list.ts:50-59 | an acknowledgment from a peer over the wire merges into the entry and queues a deletion only at the threshold |
| `CappedJobLists.ThreeAcks` | test/meta-job-list.test.ts:46-53 | three peers' acknowledgments give counts 1, 2 and 3 and the acknowledgers A, B and C |
| `CappedJobLists.AddAck` | src/capped-job-list.ts:69-71 | one more peer's acknowledgment adds exactly that peer to the acknowledgers, stores its record, and keeps every other peer's record |
| `CappedJobLists.SameRecord` | src/capped-job-list.ts:69-71 | when every peer of an entry holds the same record and one more peer adds that record, every peer still holds it |
| `CappedJobLists.ReceiveTwoAcks` | test/meta-job-list.test.ts:27-31 | with threshold 3, a job and two acknowledgments leave the job in place |
| `CappedJobLists.DoneHere` | src/capped-job-list.ts:62-80 | a job done at a collector with nothing queued gets this replica's record in the entry, and the deletion is queued exactly when the entry has reached the threshold |
| `CappedJobLists.CollectWithThreePeers` | test/meta-job-list.test.ts:46-53 | the third acknowledgment, written locally when the job is done, collects the job, and the ledger keeps A, B and C |
| `CappedJobLists.ThresholdScenario` | test/meta-job-list.test.ts:6-54 | (through the suppression of src/capped-job-list.ts lines 50-56 and the sweep of lines 83-100) the job is gone, the acknowledgers are A, B and C, a late update of the job is dropped, and a later sweep brings the count to 0 |

## Left out

- The replication protocol of the two sub-models is not part of this model.
  That covers the watermark rejection of old updates, last-writer-wins
  ordering inside the ledger, and streams and transport (`createStream`,
  `link`). A sub-model here takes in every update it is given.
- The job list's own semantics (creation options, progress, extra data,
  sort ids, `createBefore`/`createAfter`, `getJob`, `at`, `getLength`) are
  not modelled. Its state is the ids of the jobs it holds. An update whose
  data names a job makes that job present. Local creation and `done` are
  entry points (`OnJobDone`), not operations.
- The pass-through of job-list events to the multiplexer's own listeners
  (`on`, `once`, `off`, `addListener`, `removeListener`, `onJobListEvent`)
  is left out. It only forwards arguments.
- The deep copy `JSON.parse(JSON.stringify(...))` has no counterpart:
  Dafny values are immutable.
- The timers: `metaCleanInterval` is stored but not scheduled, and
  `Cleanup` is one tick of the sweep. `Date.now()` is the `now` argument.
- The shared monotonic clock of the replicated-object library is modelled
  as `max(now, clock + 1)`. Timestamps are integers, not floating point.
- `MetaJobLists.Route`, `CappedJobLists.Admit`: JavaScript turns a
  sub-model name that is not a string into a property key. The model does
  not, and gives `Threw` for every name that is not a string. In the
  source, an update tagged `[["Meta"], x]` reaches the ledger, because
  `this._parts[["Meta"]]` is `this._parts["Meta"]` (src/meta-job-list.ts:139).
  It is then echoed: the listener at line 251 compares the array held in
  `_disabledEmitter` with the string `"Meta"`, and they differ. In the
  collector, a name `["JobList"]` fails `name === JobListName`
  (src/capped-job-list.ts:50). Such a job-list update skips the
  suppression and can bring back a collected job.
- `Parts.JobKey`, `CappedJobLists.NotifiedCount`: JavaScript's key coercion
  of job ids is not modelled either. A job id that is not a string (a
  number read from a job-list payload) counts as no entry, so its count
  is 0.
- JavaScript compares strings by UTF-16 code unit. Here strings are compared
  by `char`, which is the same for the ASCII ids the system uses.
- `Object.keys` order is not modelled. The sweep looks at entries in no
  particular order. The ledger it leaves does not depend on that order; the
  order of its `null` writes does.
- The loggers and the exceptions thrown by event listeners are left out.
  `createId` is the `generatedId` argument of the constructor.
- The ledger's `changed` event is taken to fire for every applied ledger
  update with a `[key, value]` shape, local or remote, and only for those.
- `MetaJobLists.MetaJobList.ApplyUpdate`, `CappedJobLists.CappedJobList.ApplyUpdate`:
  the sub-models here raise no `_remove` event while they take in an
  update, so the contract says nothing is emitted. In the source, the
  `_remove` listener (src/meta-job-list.ts:258-261) has no disabled check,
  so a removal raised during `applyUpdate` would be relayed.
- `CappedJobLists.NewestAck`, `Wire.TimestampOf`: the scan reads only numeric
  timestamp slots and skips every other record. In the source
  (src/capped-job-list.ts:91-94), a `null` record makes `jobSynced[k][1]`
  throw, which ends the sweep and its re-arming `setTimeout` (lines
  101-103). A string slot is compared after JavaScript's coercion, and a
  plain object's `"1"` field is read. None of this is modelled.
- `MetaJobLists.MetaJobList.DeleteJob`: the job list's own notification of
  a deletion is not modelled, because the job list is external to the core.
  The stand-in deletion emits nothing.
- `HistoryOrder.SortHistory`: the sort is an insertion sort that keeps equal
  items in input order. Stability is not stated as a contract. The
  contract is sortedness and permutation.
