# Verification of the libklio store

libklio keeps time series of sensors. Its `Store` class is a write-back cache: readings are buffered in
memory per sensor, as insertions and as updates, and reach the database when the buffers are flushed, which
happens on reads, on a timer, on request and at the end of a transaction. Sensors are cached by uuid and
indexed by external id; stores are synchronised by external id. This project models that cache over the
SQLite backend and proves what its users rely on, for every run. It also covers the append-only readings log
of the TXT backend, the day grid of the Octave exporter and the collation of several sensors into one table.

`dafny verify dfyconfig.toml` checks the whole project (Dafny 4.11).

## How it is organised

| files | content |
|---|---|
| `types.dfy`, `ascending.dfy`, `database.dfy`, `batches.dfy` | sensors, readings, the order of a `std::map`, the tables and their constraints, what a series of `INSERT`s leaves behind and how it is cut into bulks |
| `cell.dfy` | one sensor: what is stored, what is held back, what a reader sees |
| `cache.dfy`, `storemodel.dfy` | the three buffers; the store as a state machine with one step per public operation |
| `refinement.dfy`, `schedules.dfy`, `transactions.dfy`, `staleness.dfy` | theorems about all runs of that machine |
| `sync.dfy`, `merging.dfy`, `aborted.dfy` | syncs as runs: when they go through, what they show and lose, syncing both ways, and what a sync that throws leaves behind |
| `handlers.dfy`, `sqlite.dfy` | transaction handlers on one connection: the protocol, and the classes that follow it |
| `inserting.dfy`, `syncing.dfy` | where the loops of a flush and of a sync stand |
| `clock.dfy`, `records.dfy`, `store.dfy` | the clock, the record methods of the SQLite store, and class `Store`, statement by statement |
| `clients.dfy` | what clients do with stores: any calls, a recording, a renaming, bringing two stores together |
| `text.dfy`, `txtlog.dfy`, `saved.dfy` | lines, fields and numbers; the readings file of the TXT store; what of all that is saved comes back |
| `octave.dfy`, `collate.dfy` | the exporter's rows; the collation table |

Class `Store` and the classes under it change their fields as the originals do. Each public method is proved
to take exactly the step of the state machine (`StoreModel.Apply`) that the theorems are about, with the
outcome it returns; a thrown exception is an `Err` with its reason. `Clients.Drive` puts the steps together: any
calls are a run, by the store's own clock. How that clock advances and the order in which hash maps and SQL rows
are enumerated are left open, so what is proved holds for every clock that does not go back and for every order.

## Where the code and its promises part

- A time stamp that receives two different update values shows the first one until the next flush and the
  second one if a flush came in between: the flush schedule is invisible exactly when that does not happen
  (`Cells.FlushScheduleIndependence`, `Schedules.FlushScheduleIsInvisible`; `Cells.TwoUpdatesTwoReadings` is an
  example).
- Registering a known sensor again (`update_sensor`, sync) drops what was held back for it.
  `Merging.WhatAnUpdateLoses` and `Merging.WhatASyncLoses` say exactly when that loses a reading, and
  `Merging.SyncMergesIff` exactly when a whole sync merges; `Merging.UpdateDropsAReading` and
  `Merging.SyncDropsAReading` are examples. Syncing both ways makes the two stores equal in any
  case (`Merging.TwoWaySyncConverges`).
- Updating a sensor that is unknown or changes its external id, and removing one under a wrong external id,
  part the cache from the database: `StoreModel.UpdateAgreesIff` and `StoreModel.RemoveAgreesIff` give the exact
  conditions, `StoreModel.UnknownSensorIsCached` and `StoreModel.RemovalGoesStale` examples.
- A sensor that gets a new external id keeps its readings and what is held back for it, and is found under the
  new id when the file is reopened (`StoreModel.UpdateEffect`, `Clients.Rename`), but it leaves a stale index entry
  (`Caches.UnstableIdGoesStale`), and the next sensor under the old id evicts it (`Caches.StaleIdEvicts`).
- A flush or a sync that throws with automatic commits leaves the database as it was but not the buffers.
  `Transactions.AbortedFlushLosesIff`, `AbortedSyncs.AbortedSyncAgreesIff` and
  `AbortedSyncs.AbortedSyncShowsTheSameIff` say exactly what survives; `Transactions.AbortedFlushLosesAReading`,
  `AbortedSyncs.AbortedSyncGoesStale` and `AbortedSyncs.AbortedSyncLosesAReading` are examples.
- In the TXT store an update of a saved reading is written but never read (`SavedReadings.FirstWriteWins`), and
  the store accepts separators with which saved readings come back wrong, since it prints all of the separator
  but separates at the characters before its first NUL only, or since the separator meets what is printed.
  `SavedReadings.ComesBackIff` says exactly with which ones all comes back; the default one is among them
  (`SavedReadings.CommaSeparates`).
- The Octave exporter puts the first reading of a later day into the wrong slot, and merges two days into one
  row, if it falls on the last second of its day, and it writes past the row when the last minute of a day is
  taken (`Octave.ExportIsTheGridIff`, `Octave.LateReadingIsMisplaced`, `Octave.LastMinuteOverruns`).
- `collate` returns a default table; what is proved is about the table it fills.

## Model

| member | source | states |
|---|---|---|
| `Cells.InsertShows` | libklio/store.cpp:111-144 | A buffered insertion is visible at once, underneath everything that was visible before |
| `Cells.UpdateShows` | libklio/store.cpp:127-144 | A buffered update is visible at once, over everything but the time stamps that already have an update pending |
| `Cells.FlushHides` | libklio/store.cpp:383-427 | Flushing a sensor changes nothing that a reader sees |
| `Cells.CoherentRunsShowTheIntention` | libklio/store.cpp:134-144 | If no time stamp receives two different update values, every run shows put-if-absent for insertions and put for updates, wherever it flushed |
| `Cells.FlushScheduleIndependence` | libklio/store.cpp:363-427 | All flush schedules of the same writes show the same readings if and only if no time stamp receives two different update values, pending ones included |
| `Cells.TwoUpdatesTwoReadings` | libklio/store.cpp:127-144 | Two update values for one time stamp: the first one shows without a flush, the second one with a flush in between |
| `Cells.InsertOnlyRunsAreIndependent` | libklio/store.cpp:111-118 | Runs that only insert never depend on the flush schedule |
| `Batches.InsertedInOrder` | libklio/store.cpp:396-420 | Inserting the lower part of a batch and then the higher one leaves the same table as inserting all of it, with errors ignored or not |
| `Batches.ConflictStops` | libklio/store.cpp:396-420 | Once a duplicate has stopped an insertion, the readings after it make no difference to the table |
| `Batches.BulksCoverTheBatch` | libklio/store.cpp:404-419 | The bulks are exactly ceil(n / max) many, each non-empty and at most max, strictly one after the other in time, and together the batch |
| `Batches.CountsTheBulks` | libklio/store.cpp:408-410 | The counter the bulk loop starts with is the number of those bulks |
| `Databases.RecordsKeepConsistency` | libklio/sqlite3/sqlite3-store.cpp:383-461 | Adding, removing and updating a sensor keep the key and the unique external ids and one readings table per sensor; where they throw nothing has changed |
| `Databases.StatementEffects` | libklio/sqlite3/sqlite3-store.cpp:383-461 | For any tables: which rows and tables there are after adding, removing or updating a sensor, and which error there was |
| `Caches.SetBuffersKeepsIndexed` | libklio/store.cpp:429-452 | Without any assumption on the sensor: buffers and sensors keep the same keys, each cached external id leads back to its sensor, so they are unique |
| `Caches.SetBuffersEffect` | libklio/store.cpp:429-452 | For any buffers: the sensor is in, under its external id, whom that id led to is out, and every other sensor, entry and reading held back stays |
| `Caches.StaleEntryKeepsReadings` | libklio/store.cpp:431-448 | An index entry that leads to no sensor changes nothing of what is held back |
| `Caches.SetBuffersMovesReadings` | libklio/store.cpp:431-448 | What was held back moves intact to a uuid that takes over the external id, is dropped if the same uuid is registered again, stays if it gets a new external id, and a newcomer starts empty |
| `Caches.SetBuffersFrame` | libklio/store.cpp:429-452 | Under stable external ids no other sensor and nothing held back for it is touched |
| `Caches.SetBuffersKeepsExact` | libklio/store.cpp:429-452 | Under stable external ids the index stays the exact inverse of the sensors |
| `Caches.UnstableIdGoesStale` | libklio/store.cpp:429-452 | A changed external id always leaves an index entry that belongs to no sensor |
| `Caches.StaleIdEvicts` | libklio/store.cpp:431-440 | The next sensor under the abandoned external id evicts the renamed one and takes over what was held back for it |
| `Caches.ClearBuffersKeepsExact` | libklio/store.cpp:454-459 | Clearing a sensor keeps the index exact |
| `Caches.ExactIndexIsUnique` | libklio/store.cpp:451 | The sensors determine their index |
| `Caches.PrepareBuildsTheCache` | libklio/store.cpp:343-349 | From empty buffers, preparing in any order of the records builds the one cache of the sensors table, with nothing held back |
| `StoreModel.ApplyAgreesIff` | libklio/store.cpp:75-109 | A step keeps cache and database in agreement (the cached sensors are the table, each has a readings table and buffers, and the index is their exact inverse) if and only if it is not the update of an unknown or renamed sensor, nor the removal of one under another external id, nor the end of an undone sync that has registered others than the table has |
| `StoreModel.UpdateAgreesIff` | libklio/store.cpp:99-109 | After an update they agree if and only if it was refused for want of a transaction, or the sensor is registered and keeps its external id, or the new one is taken, so that it fails |
| `StoreModel.RemoveAgreesIff` | libklio/store.cpp:87-97 | After a removal they agree if and only if it was refused for want of a transaction, or the sensor was given under its own external id or is unknown |
| `StoreModel.UnknownSensorIsCached` | libklio/store.cpp:99-109 | Updating an unknown sensor in an empty store succeeds, caches it and stores nothing |
| `StoreModel.UpdateEffect` | libklio/store.cpp:99-109 | An update of a registered sensor under its own or an unused external id goes through, replaces its row and changes no readings table; under a new id all that was held back still is, and a store opened on the file finds the sensor under the new id and nothing under the old one |
| `StoreModel.UnknownUpdateEffect` | libklio/store.cpp:99-109 | An update of an unknown sensor goes through, leaves the database alone and caches the sensor |
| `StoreModel.RemoveEffect` | libklio/store.cpp:87-97 | A removal, whatever the external id it is asked for: row, table, cached sensor, what is held back and that id's index entry are gone, and nothing else; an unknown sensor is an error and changes nothing |
| `StoreModel.RemovalGoesStale` | libklio/store.cpp:87-97 | A sensor removed under another external id is gone, and its index entry stays |
| `StoreModel.Run` | libklio/store.cpp:14-144 | Cache and database agree in every state that a run reaches, rotations, flushes and commits that throw halfway and syncs that are undone included |
| `StoreModel.OpeningAgrees` | libklio/store.cpp:343-349 | A store that has just been opened agrees with its file |
| `StoreModel.IndexFindsTheOwner` | libklio/store.cpp:177-188 | The external id index answers what the unique index of the sensors table would |
| `StoreModel.FlushInTwoParts` | libklio/store.cpp:394-426 | Insertions first and updates second are one flush of the sensor |
| `StoreModel.FlushOneMore` | libklio/store.cpp:376-381 | Flushing one sensor after the other, in any order, is flushing them together |
| `StoreModel.FlushSomeShowsTheSame` | libklio/store.cpp:376-427 | Whichever sensors have been flushed, readers see the same, and nothing is taken from the others |
| `StoreModel.KnownRecordUpdates` | libklio/store.cpp:312-334 | The record of a known external id can always be updated, and where its properties are the same there is nothing to write |
| `StoreModel.StoppedKeeps` | libklio/store.cpp:394-420 | A flush that throws takes nothing from the sensor at fault, and cache and database still agree, rolled back or not |
| `StoreModel.SomeStop` | libklio/store.cpp:376-420 | A flush that does not ignore errors has somewhere to stop if and only if some sensor holds back a duplicate |
| `StoreModel.RotatedAgrees` | libklio/sqlite3/sqlite3-store.cpp:305-326 | After a rotation cache and database agree |
| `StoreModel.RotationLosesNothing` | libklio/sqlite3/sqlite3-store.cpp:305-326 | Nothing held back changes, and the old file together with what the new one shows is what readers saw before |
| `Refinement.ApplyRefines` | libklio/store.cpp:75-144 | Every step, with its outcome, is a step of a reference store that has no buffers, caches or index |
| `Refinement.RunRefines` | libklio/store.cpp:14-144 | Every run is a run of the reference store, with rotations, with strict flushes and commits that stop at any sensor, in any order, with syncs that are undone, and with automatic or manual commits |
| `Refinement.ReadYourWrites` | libklio/store.cpp:219-226 | After any mix of steps a reader gets what the reference store shows: insertions put if absent, updates put unless updated since the last flush |
| `Schedules.RunActsOnTheCell` | libklio/store.cpp:111-144 | What a run of writes, flushes, reads and timer flushes does to one sensor is the run of its own events |
| `Schedules.SameWritesShowTheSame` | libklio/store.cpp:363-381 | Two runs with the same coherent writes show the same, whatever their timers, clocks and reads |
| `Schedules.FlushScheduleIsInvisible` | libklio/store.cpp:363-427 | For the whole store: when it flushed is invisible to the readers of a sensor if and only if no time stamp of it receives two different update values |
| `Transactions.SnapshotStays` | libklio/store.cpp:14-18 | No steps but a commit or rollback that goes through move the starting point of an open transaction |
| `Transactions.RollbackUndoesTheRun` | libklio/store.cpp:27-33 | After start, any steps that leave the transaction open, flushes and commits that throw included, and rollback, the database is the one at the start, nothing is held back and the buffers are those of a freshly prepared store |
| `Transactions.CommitStores` | libklio/store.cpp:20-25 | A commit goes through if and only if it ignores duplicates or none is held back, and then the database holds what readers saw |
| `Transactions.CommitOutlivesRollback` | libklio/store.cpp:14-33 | After start, any steps, a commit that goes through, start, any steps that leave the transaction open, and rollback, the database holds for every sensor what readers saw just before the commit |
| `Transactions.AbortedFlushLosesIff` | libklio/store.cpp:356-381 | If a flush that does not ignore errors is rolled back, readers of a sensor see the same as before if and only if it had not been reached or had nothing new held back |
| `Transactions.AbortedFlushLosesAReading` | libklio/store.cpp:356-381 | Two sensors, of which the second holds back a duplicate: the first, flushed before it, loses its reading |
| `Staleness.HeldReadingsAreFresh` | libklio/store.cpp:363-374 | With automatic commits and a clock that does not go back, everything held back after any run was accepted at or after the last timed flush |
| `Staleness.BoundedStaleness` | libklio/store.cpp:111-144 | With the timer on, after every non-empty write everything still held back was accepted at or after the last timed flush, less than the timeout ago |
| `Synchronisation.SyncOneEffect` | libklio/store.cpp:300-341 | One synchronised sensor: its external id keeps the local uuid if there is one, shows the source's properties and the stored readings overridden by the source's; every other entry stays |
| `Merging.WhatASyncLoses` | libklio/store.cpp:300-306 | A synchronised sensor that is known shows what readers saw overridden by the source's readings if and only if each reading held back is stored already or overridden by the source |
| `Merging.WhatAnUpdateLoses` | libklio/store.cpp:99-109 | An update of a sensor leaves what readers see if and only if each reading held back is stored already |
| `Merging.UpdateDropsAReading` | libklio/store.cpp:99-109 | A sensor with a reading held back is updated by itself: the reading is gone |
| `Merging.SyncDropsAReading` | libklio/store.cpp:300-341 | The same by a sync that goes through, whose source has no readings of the sensor |
| `Merging.EffectOfItem` | libklio/store.cpp:264-341 | Whatever is synchronised before and after it, a sensor of the source ends with the source's properties and its own readings, stored or flushed by the timer in time, overridden by the source's |
| `Synchronisation.SyncSucceedsWithoutClash` | libklio/store.cpp:264-275 | A sync goes through if and only if no uuid of the source belongs to another external id here |
| `Merging.SyncMergesIff` | libklio/store.cpp:264-275 | Every external id of the source ends with the source's properties and the own readings overridden by the source's, and all other entries stay as they were, if and only if for each sensor the timer had flushed before or nothing held back is lost |
| `Synchronisation.SyncKeepsUuids` | libklio/store.cpp:308-341 | Known external ids keep their uuid, new ones take the source's |
| `Synchronisation.SyncIsIdempotent` | libklio/store.cpp:264-341 | Repeating a sync shows nothing new, whatever was flushed or read in between |
| `Merging.SyncOverridesIff` | libklio/store.cpp:264-275 | The target's entries become the target's overridden by the source's if and only if the same holds |
| `Merging.NoClashOnTheWayBack` | libklio/store.cpp:264-341 | A sync in one direction never makes the one in the other direction throw |
| `Merging.TwoWaySyncConverges` | libklio/store.cpp:264-341 | After A.sync(B) and B.sync(A), neither of which throws, both show the same, whatever was held back and whatever the timers did; it is A's entries overridden by B's if and only if A loses nothing it holds back |
| `Synchronisation.SyncInsideATransaction` | libklio/store.cpp:264-275 | The transaction around a sync changes nothing of what arrives, timer flushes included |
| `AbortedSyncs.AbortedSyncAgreesIff` | libklio/store.cpp:264-275 | After a sync that threw and was rolled back, cache and database agree if and only if every sensor synchronised before was known, with the same properties |
| `AbortedSyncs.AbortedSyncLosesIff` | libklio/store.cpp:264-306 | Readers of a sensor see the same after it as before if and only if neither an item nor the timer has touched it, or what is held back now, over what was stored, is what was visible |
| `AbortedSyncs.HeldListed` | libklio/store.cpp:300-341 | For a sensor of the source nothing is held back if the timer has flushed when its readings or later ones arrived, and else these readings as updates |
| `AbortedSyncs.AbortedSyncShowsTheSameIff` | libklio/store.cpp:264-306 | Readers of a sensor see the same after it as before if and only if what was visible is what was stored, overridden by the readings of the source unless the timer has flushed them; no condition for a sensor that neither the source nor the timer touched |
| `AbortedSyncs.AbortedSyncIsARun` | libklio/store.cpp:264-275 | A sync that threw and was rolled back is part of a run if and only if every sensor synchronised before was known, with the same properties |
| `AbortedSyncs.AbortedSyncGoesStale` | libklio/store.cpp:264-275 | A new sensor followed by one that clashes: the new one stays cached and is not in the database |
| `AbortedSyncs.AbortedSyncLosesAReading` | libklio/store.cpp:264-306 | A known sensor followed by one that clashes: the reading held back for the known one is gone |
| `Handlers.ActIsSafe` | libklio/sqlite3/sqlite3-transaction.cpp:7-64 | Each action keeps: at most one handler is pending, and one is exactly if the connection is in a transaction |
| `Handlers.RunsAreSafe` | libklio/sqlite3/sqlite3-transaction.cpp:7-64 | The same over every interleaving of any number of handlers |
| `Handlers.OnlyTheOwnerEnds` | libklio/sqlite3/sqlite3-transaction.cpp:7-64 | Whatever other handlers start, commit, roll back or destroy, the transaction of the pending one stays open with the same starting point |
| `Handlers.DestructorUndoes` | libklio/sqlite3/sqlite3-transaction.hpp:39-41 | Destroying a pending handler undoes everything since its start, also what other handlers believe to have committed |
| `SQLite.Connection.InsertSensor` | libklio/sqlite3/sqlite3-store.cpp:192-200 | The row is inserted if and only if neither its uuid nor its external id is taken |
| `SQLite.Connection.UpdateSensor` | libklio/sqlite3/sqlite3-store.cpp:443-461 | An unknown uuid changes nothing and is no error; a known one is updated unless another sensor has the external id |
| `SQLite.Connection.InsertReading` | libklio/sqlite3/sqlite3-store.cpp:621-638 | `INSERT` puts if absent and fails otherwise, `INSERT OR REPLACE` puts |
| `SQLite.Connection.SelectSensors` | libklio/sqlite3/sqlite3-store.cpp:463-478 | All records, each once, in some order |
| `SQLite.SQLite3Transaction.constructor` | libklio/sqlite3/sqlite3-transaction.hpp:34-37 | A new handler is not pending |
| `SQLite.SQLite3Transaction.Start` | libklio/sqlite3/sqlite3-transaction.cpp:7-24 | Takes the start action of the protocol: a nested `BEGIN` leaves the handler idle, without a connection it throws |
| `SQLite.SQLite3Transaction.Commit` | libklio/sqlite3/sqlite3-transaction.cpp:26-44 | Takes the commit action of the protocol |
| `SQLite.SQLite3Transaction.Rollback` | libklio/sqlite3/sqlite3-transaction.cpp:46-64 | Takes the rollback action of the protocol |
| `SQLite.SQLite3Transaction.Destroy` | libklio/sqlite3/sqlite3-transaction.hpp:39-41 | Takes the closing action of the protocol: roll back if pending, and be gone |
| `Records.AddSensorRecord` | libklio/sqlite3/sqlite3-store.cpp:383-414 | Row and readings table, or the error of the statement that failed |
| `Records.RemoveSensorRecord` | libklio/sqlite3/sqlite3-store.cpp:416-441 | Row and readings table are gone; a missing table is an error |
| `Records.UpdateSensorRecord` | libklio/sqlite3/sqlite3-store.cpp:443-461 | The row is replaced, left alone if unknown, or the external id is in use |
| `Records.AddReadingRecord` | libklio/sqlite3/sqlite3-store.cpp:621-638 | One reading is put, or put if absent; a duplicate is an error unless errors are ignored |
| `Records.AddSingleReadingRecords` | libklio/store.cpp:396-401 | All new readings are in the table, or those before the first duplicate and an error |
| `Records.AddBulkReadingRecords` | libklio/sqlite3/sqlite3-store.cpp:607-612 | The same for a bulk |
| `Records.FillBulk` | libklio/store.cpp:412-415 | The bulk is the next stretch of readings, as long as possible |
| `Records.InsertInBulks` | libklio/store.cpp:403-419 | The large path leaves the same table and outcome as the small one for any maximum above zero, and hands over exactly the bulks of `BulksCoverTheBatch` |
| `Records.UpdateReadingRecords` | libklio/sqlite3/sqlite3-store.cpp:614-619 | The stored readings are overridden by the updates |
| `Stores.Store.constructor` | libklio/sqlite3/sqlite3-store.cpp:45-71 | An opened store has nothing cached, nothing held back and an idle handler of its own |
| `Stores.Store.Open` | libklio/store.cpp:343-349 | An opened and prepared store is the one cache of its file |
| `Stores.Store.AutoStartTransaction` | libklio/store.cpp:50-66 | A fresh handler, pending unless a transaction is open already; with manual commits the client's own, or an error if it is not pending |
| `Stores.Store.AutoCommitTransaction` | libklio/store.cpp:68-73 | Ends the transaction of a pending automatic handler and nothing else |
| `Stores.Store.Release` | libklio/sqlite3/sqlite3-transaction.hpp:39-41 | A pending automatic handler that goes out of scope restores the database; any other changes nothing |
| `Stores.Store.SetBuffers` | libklio/store.cpp:429-452 | The buffers are those of `Caches.SetBuffers` |
| `Stores.Store.ClearSensorBuffers` | libklio/store.cpp:454-459 | The buffers without the sensor |
| `Stores.Store.Prepare` | libklio/store.cpp:343-349 | Registers every record, in the order in which the database lists them |
| `Stores.Store.AddSensor` | libklio/store.cpp:75-85 | Takes the step `AddSensor`: if it throws with automatic commits database and buffers are unchanged, and no transaction is left open |
| `Stores.Store.RemoveSensor` | libklio/store.cpp:87-97 | Takes the step `RemoveSensor`; no transaction is left open; the store is valid afterwards if and only if the sensor was given under its own external id, is unknown, or the call was refused |
| `Stores.Store.UpdateSensor` | libklio/store.cpp:99-109 | Takes the step `UpdateSensor`; no transaction is left open; the store is valid afterwards if and only if the condition of `UpdateAgreesIff` was met |
| `Stores.Store.InsertIntoBuffer` | libklio/store.cpp:138-141 | Of all readings buffered for a time stamp the first one stays |
| `Stores.Store.BufferReadings` | libklio/store.cpp:134-144 | Unknown sensors are an error, empty batches nothing; else the readings are buffered and the timer looked at |
| `Stores.Store.AddReading` | libklio/store.cpp:111-118 | Takes the step `Write` with one insertion at the clock's time; after it the timer has flushed less than the timeout ago |
| `Stores.Store.AddReadings` | libklio/store.cpp:120-125 | Takes the step `Write` with insertions at the clock's time; if there are any, the timer has flushed less than the timeout ago |
| `Stores.Store.UpdateReadings` | libklio/store.cpp:127-132 | Takes the step `Write` with updates at the clock's time; if there are any, the timer has flushed less than the timeout ago |
| `Stores.Store.GetAllReadings` | libklio/store.cpp:219-226 | Returns what was visible, and leaves the sensor flushed, also after its external id has changed |
| `Stores.Store.FlushSensor` | libklio/store.cpp:383-427 | Everything held back is in the table and the buffers are empty; or the first duplicate stopped it, with the readings before it in and everything still held back |
| `Stores.Store.FlushAll` | libklio/store.cpp:376-381 | All sensors are flushed, or some are and the flush stopped at one with a duplicate; it throws if and only if errors are not ignored and there is one |
| `Stores.Store.Flush` | libklio/store.cpp:356-361 | Takes the step `Flush`, or `StrictFlush` if errors are not ignored, which throws if and only if a duplicate is held back; if it throws with automatic commits the database is as before and the sensor at fault keeps all that was held back |
| `Stores.Store.AutoFlush` | libklio/store.cpp:363-374 | Asks the clock and flushes if the timer is due, so that the last flush is less than the timeout ago; opened inside another transaction it neither ends it nor leaves a handler behind |
| `Stores.Store.StartTransaction` | libklio/store.cpp:14-18 | Takes the step `Start` |
| `Stores.Store.CommitTransaction` | libklio/store.cpp:20-25 | Takes the step `Commit`: strict where the timer is off, and if the flush throws the transaction stays open |
| `Stores.Store.RollbackTransaction` | libklio/store.cpp:27-33 | Takes the step `Rollback`: the buffers are rebuilt from the restored database |
| `Stores.Store.SyncSensorRecord` | libklio/store.cpp:308-341 | The external id decides which sensor is updated or added; it throws exactly on a clash of uuids |
| `Stores.Store.SyncReadingRecords` | libklio/store.cpp:300-306 | The source is flushed for the sensor and its visible readings arrive as the step `SyncItem` |
| `Stores.Store.SyncNext` | libklio/store.cpp:271-273 | One more round of the loop: throws exactly if this record clashes with what was here before the sync; the source is flushed for it in either case |
| `Stores.Store.Sync` | libklio/store.cpp:264-275 | Reads every sensor of the source once and takes the steps for them; throws if and only if one clashes, and then restores the database if commits are automatic, while the source has been flushed for the sensors read and for no others; refused, it changes neither store; the store is valid afterwards if and only if it went through, commits are manual, or every sensor that had arrived was known with the same properties |
| `Stores.Store.Rotate` | libklio/sqlite3/sqlite3-store.cpp:305-326 | Takes the step `Rotate`: the old file is the previous database, the new one has the cached sensors and no readings, the buffers are unchanged; refused while a transaction is pending |
| `Clocks.Clock.GetTimestamp` | libklio/time.cpp:27-32 | The time, which is not before any time told earlier |
| `Clients.Perform` | libklio/store.cpp:14-144 | Each public call takes its step, with its outcome, and a write takes place at the clock's time |
| `Clients.Drive` | libklio/store.cpp:14-144 | Any sequence of calls is a run of their steps, in order and at the times of the clock; only updates and removals by an outdated handle are left out |
| `Clients.Record` | libklio/store.cpp:111-144 | With timer and automatic commits, after any calls and a write that goes through every reading still held back was accepted less than the timeout ago |
| `Clients.Rename` | libklio/store.cpp:99-109 | A sensor gets a new external id and its readings are read: they are those visible before, and the reopened file has the sensor under the new id with these readings |
| `Clients.SyncBothWays` | libklio/store.cpp:264-341 | Two stores that sync each other: neither call throws, both are valid and show the same afterwards |
| `Syncing.NextClashes` | libklio/store.cpp:271-273 | Whether a record clashes was decided before the sync began |
| `Syncing.SyncEnds` | libklio/store.cpp:268-273 | A finished loop has read every sensor of the source, and flushed them all |
| `Syncing.FetchedAreDistinct` | libklio/store.cpp:268-273 | Also when it throws, a sync has read no external id and no uuid twice |
| `Text.AppendedLine` | libklio/txt/txt-store.cpp:271-276 | A line appended to a file that ends with a line feed is read as one more line |
| `Text.UnterminatedLine` | libklio/txt/txt-store.cpp:288 | A last line that does not end with a line feed is read as well |
| `Text.TokensAreFields` | libklio/txt/txt-store.cpp:290 | Whatever the line, no token is empty or contains a separator |
| `Text.FieldsComeBackIff` | libklio/txt/txt-store.cpp:271-294 | Tokenising a printed line returns its fields if and only if none is empty or contains a character that separates, and, if there is more than one, the separator is not empty and has no NUL |
| `Text.IntComesBack` | libklio/txt/txt-store.cpp:203-274 | A printed time stamp is parsed as itself |
| `Text.ParseIntIff` | libklio/txt/txt-store.cpp:203 | A time stamp is read exactly from an optional sign and digits, as the 64 bit number they stand for |
| `Text.FirstDigit` | libklio/txt/txt-store.cpp:274 | A number is printed without leading zeros |
| `Text.DigitFromTheRight` | libklio/txt/txt-store.cpp:275 | Each printed decimal is the digit at its place |
| `Text.Rounded` | libklio/txt/txt-store.cpp:275 | The nearest whole number, and the even one of two |
| `Text.MiddleIsKeptEven` | libklio/txt/txt-store.cpp:207-275 | A value in the middle of two with six decimals is kept as the even one |
| `Text.MiddleIsPrintedEven` | libklio/txt/txt-store.cpp:275 | 1/128 is printed as 0.007812 |
| `Text.SignIsPrinted` | libklio/txt/txt-store.cpp:275 | Exactly the negative numbers are printed with a sign, even if all digits are zero |
| `Text.KeptIsClose` | libklio/txt/txt-store.cpp:275 | The six decimals that are kept differ from the value by at most half of the last one |
| `Text.KeptIsKept` | libklio/txt/txt-store.cpp:207-275 | Saving again what was read loses nothing more |
| `Text.FixedComesBack` | libklio/txt/txt-store.cpp:207-275 | A printed value is parsed as its six decimal value |
| `Text.ParseFixedReadsFixed` | libklio/txt/txt-store.cpp:207 | There is a parser that reads back all that `std::to_string` prints of a number |
| `TxtLog.KeyIsLiveIff` | libklio/txt/txt-store.cpp:278-316 | A key is in the result if and only if it has an ENABLED line after its last other line, and its record is the first such line |
| `TxtLog.AppendingNeverChanges` | libklio/txt/txt-store.cpp:297-302 | Appending ENABLED lines never changes the record of a key that is there |
| `TxtLog.LineOfANumber` | libklio/txt/txt-store.cpp:271-276 | The line for the value 1/128 at time 5 |
| `TxtLog.LineOfNoNumber` | libklio/txt/txt-store.cpp:271-276 | The line for a negative `nan` at time -1 |
| `TxtLog.SavesAscend` | libklio/txt/txt-store.cpp:129-165 | A batch is saved in the order of time, each reading once |
| `TxtLog.ReadingOfIff` | libklio/txt/txt-store.cpp:195-212 | A record is read exactly if its value is not `nan` and both its numbers can be read |
| `TxtLog.NaNIsSkipped` | libklio/txt/txt-store.cpp:195-212 | A value with `nan` anywhere in it, in upper or lower case, is skipped |
| `TxtLog.ReadingsFile.SaveReading` | libklio/txt/txt-store.cpp:112-127 | The file grows by one line |
| `TxtLog.ReadingsFile.SaveReadings` | libklio/txt/txt-store.cpp:129-165 | The file grows by the lines of the batch, for additions and updates alike |
| `TxtLog.ReadingsFile.ReadRecords` | libklio/txt/txt-store.cpp:278-316 | Throws if and only if a line has a single field; otherwise returns the live records, each once |
| `TxtLog.ReadingsFile.GetAllReadings` | libklio/txt/txt-store.cpp:187-215 | Throws if and only if a line has a single field or a live record no third one; otherwise collects the readings that can be read |
| `SavedReadings.CommaSeparates` | libklio/txt/txt-store.cpp:14 | The default separator meets the condition under which all comes back |
| `SavedReadings.SavedReadingComesBack` | libklio/txt/txt-store.cpp:195-212 | With a separator that keeps clear of printed numbers, a saved number is read with its six decimals, and what is no number is skipped |
| `SavedReadings.SavedFileComesBack` | libklio/txt/txt-store.cpp:271-294 | With any separator that has no line feed, the log of a file is line by line what was saved to it |
| `SavedReadings.FirstRecordIsShown` | libklio/txt/txt-store.cpp:195-212 | Of several records that are read for a time stamp the first one gives its value |
| `SavedReadings.WhatWasSavedComesBack` | libklio/txt/txt-store.cpp:187-215 | Reading never throws on saved readings, and each time stamp shows the value first saved for it, if that is a number |
| `SavedReadings.FirstWriteWins` | libklio/txt/txt-store.cpp:129-215 | The same for any sequence of batches, whether added or meant to update |
| `SavedReadings.NULSpoils` | libklio/txt/txt-store.hpp:34-39 | With a NUL behind what separates, a saved reading is not shown |
| `SavedReadings.LineFeedSpoils` | libklio/txt/txt-store.cpp:271-294 | With a line feed in the separator, wherever it is, some saved reading does not come back |
| `SavedReadings.ComesBackIff` | libklio/txt/txt-store.cpp:129-294 | A separator brings back every sequence of batches if and only if it is not empty, none of its characters is a NUL, a line feed or one that occurs in a printed number, and what it leaves of `nan` and `-nan` cannot be read as a number |
| `Octave.NextDayIs` | libklio/octave-exporter.cpp:18-22 | Within 32 bits the next day is the following multiple of 86400 |
| `Octave.NextDayWraps` | libklio/octave-exporter.cpp:18-22 | Over the whole 32 bit range the end of the day wraps around, and from 2038 on it is kept as a negative number |
| `Octave.PositionIs` | libklio/octave-exporter.cpp:59-61 | The slot is the minute of the day, and the first minute for a reading one second early |
| `Octave.EarlierIsOutside` | libklio/octave-exporter.cpp:59-61 | A minute or more before the open day the slot is outside of the row |
| `Octave.SlotsAreInTheDay` | libklio/octave-exporter.cpp:40-61 | For any ascending, 32 bit safe readings the end of the open day is a multiple of 86400 after the last reading and every slot lies in [0, 1440) |
| `Octave.OnlyTheLastMinuteOverflows` | libklio/octave-exporter.cpp:62-68 | A row is overrun exactly by a reading for the last minute when that is taken |
| `Octave.WriteValues` | libklio/octave-exporter.cpp:24-82 | The rows written are those of `Octave.Export`, and none if a row is overrun |
| `Octave.NextValue` | libklio/octave-exporter.cpp:59-68 | One more reading changes the grid at one minute of its day only: its own, or the next one if that is taken |
| `Octave.OneReadingAMinute` | libklio/octave-exporter.cpp:59-68 | If no two readings share a minute, the grid has each reading at its day and minute and zero elsewhere |
| `Octave.DistinctReadingsFit` | libklio/octave-exporter.cpp:59-68 | ... and every reading has its slot |
| `Octave.HarmlessStaysOnTrack` | libklio/octave-exporter.cpp:40-70 | As long as no late reading does harm and every reading has a slot, the rows so far are the grid of the readings so far, however many share a minute |
| `Octave.ExportIsTheGridIff` | libklio/octave-exporter.cpp:24-82 | The export has one row per day, and in each minute the first value of it that is not zero, or what the minute before has left over, if and only if no reading finds the last minute of its day taken, and every first reading of a later day in its last second is zero and followed by a day without readings |
| `Octave.LateReadingIsMisplaced` | libklio/octave-exporter.cpp:54-61 | Two readings whose export is not the grid |
| `Octave.LastMinuteOverruns` | libklio/octave-exporter.cpp:62-68 | Two readings in the last minute of a day, the second of which is written outside of the row |
| `Collation.SameStamps` | libklio/algorithm/collate.cpp:40-63 | Two sensors enumerate equal time stamps if and only if they have the same ones |
| `Collation.CheckSizes` | libklio/algorithm/collate.cpp:25-36 | Passes if and only if all sensors have equally many readings |
| `Collation.FillColumn` | libklio/algorithm/collate.cpp:41-60 | Passes if and only if the time stamps match those of the first sensor, and then fills this column only |
| `Collation.Collate` | libklio/algorithm/collate.cpp:22-64 | Finishes if and only if all sensors have the same time stamps; then there is one row for each, in ascending order, with the time stamp and the value of each sensor at it |

## Left out

- SQL text, prepared and cached statements, bindings, file handling, the version check, `upgrade`, `dispose` and `check_integrity`: the backend is its tables, their constraints and one snapshot for the open transaction.
- Opening and closing the connection of a store, and calls on a closed one: a store is modelled from its opening on.
- `COMMIT`, `ROLLBACK` and other statements that fail for reasons outside the database, such as a full disk.
- The PostgreSQL, Redis, RocksDB and MSG backends, whose transactions and insertions behave differently.
- Time stamps beyond 32 bits, which the SQLite binding truncates: `Timestamp` is the range it stores unchanged.
- A maximum bulk size of zero, for which the number of bulks is undefined in the code.
- Floating point: values are reals, and the ceiling in the bulk count is an integer one.
- Sharing of mutable sensors between store and client: sensors are values, and a changed external id appears as the case that is not `Stable`.
- The null sensors that `operator[]` inserts for stale index entries, which cannot be reached with stable external ids.
- Stores.Store.AddReading: like the other public methods but `GetAllReadings` it is specified where cache and database agree, which is not so after a sync that was rolled back (`AbortedSyncs.AbortedSyncAgreesIff`) or after an update or removal that parted them (`StoreModel.ApplyAgreesIff`).
- Clocks.Clock.GetTimestamp: the system's clock is taken not to be set back, which `std::time` does not promise.
- Stores.Store.Sync: the two stores have different connections; a store synchronised with itself is not modelled.
- `sync_readings` and `sync_sensors`, which run parts of the same loop.
- `get_num_readings`, `get_last_reading`, `get_reading` and `get_timeframe_readings`: they flush like `get_all_readings` and then select from its result; the getters that only look up a cached sensor.
- The checks of `createSensor`, time zones and the table of device types.
- TxtLog.ReadingsFile.ReadRecords: the records come in any order, not in that of their keys, which matters only if two keys are spellings of the same time stamp.
- StoreModel.Run: a sync appears as one step for each sensor that arrived, and one more if it is undone; that step may bring back any database with the sensors that are cached, of which the one before the sync is the case in question (`AbortedSyncs.AbortedSyncIsARun`).
- SavedReadings.ComesBackIff: infinite values and negative zero are not covered.
- `lexical_cast<double>` beyond the fixed notation that `std::to_string` prints: it is a parameter of which only that is required.
- The TXT store's directories, its sensor records (properties files), `get_sensor_records`, the last reading and the time frame filter.
- Octave.ExportIsTheGridIff: no readings at all, time stamps before 1970 and those at the end of the 32 bit range are undefined or wrap around in the code.
- The text of the exported script, its description and name functions, and the other exporters and importers.
- `get_sensordata_row` and the table that `collate` returns, which is always the default one.
- Command line tools, factories and build scripts.
