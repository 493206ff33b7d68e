# Equipment log reconciliation and the access-control endpoint

This project models two pieces of a makerspace membership system in Dafny.

1. **The equipment-log sweep** is the console command `bb:fix-equipment-log`. Its `fire()` makes two passes over the equipment log, the table of usage sessions of tools and doors.
   - The first pass closes stale active sessions. A session with a heartbeat ends at its last heartbeat once that is over an hour old. A session without one ends a minute after it started once it started over an hour ago.
   - The second pass takes every closed, unprocessed session. It marks the session `removed` when it lasted at most sixty seconds, and marks it `processed` in every case.

   The table is a class `EquipmentLogRepository` whose `rows` map each row id to a `LogEntry` value. `EndSession` and `Save` reassign `rows`. The command `CheckFixEquipmentLog.Fire` runs the two `foreach` loops as `while` loops over snapshots of the query results. Each loop is proved against a function on the whole table (`CloseStale`, `ClassifyClosed`, together `Sweep`). The lemmas in `SweepProperties` state what the sweep does to each row.

2. **The access-control endpoint** is `ACSController::update()` with its two handlers. It is modelled as pure functions. Each one maps a message to the list of collaborator calls made (effects) and the response built. The validator's verdict, the key-fob lookup's outcome and the clock reading are parameters.

Timestamps are integer seconds and the sweep's "now" is a parameter. `diffInSeconds` is absolute, so a session's duration is `|finished - started|`.

The model follows what the code does, in particular:
- The code takes the absolute difference as the duration, not `finished - started`.
- `update()` does not return the response its handler builds.
- Only doors perform a key-fob lookup.
- Closing a session is not conditioned on a compare-and-set against a concurrent heartbeat.

## Model

| member | source | states |
|---|---|---|
| EquipmentLog.StaleEnd | app/commands/CheckFixEquipmentLog.php:47-57 | an active session is due to close exactly when its last activity (last heartbeat, else start) is strictly more than an hour before now; it closes at the last heartbeat, or a minute after the start when there was none |
| EquipmentLog.Ended | app/commands/CheckFixEquipmentLog.php:51 | ending a session sets its finish time and clears `active`; every other column is unchanged |
| EquipmentLog.CloseIfStale | app/commands/CheckFixEquipmentLog.php:45-58 | one active row is ended at its stale end time when it has one, else left exactly as it was |
| EquipmentLog.Duration | app/commands/CheckFixEquipmentLog.php:66 | the duration is the absolute difference of finish and start |
| EquipmentLog.Classify | app/commands/CheckFixEquipmentLog.php:65-75 | a classified row is processed, is removed iff it was already removed or lasted at most 60 seconds, and differs from the input only in those two flags |
| EquipmentLog.ActiveRows | app/commands/CheckFixEquipmentLog.php:44 | the first pass sees exactly the active rows, as stored |
| EquipmentLog.UnprocessedRows | app/commands/CheckFixEquipmentLog.php:62 | the second pass sees exactly the unprocessed rows, as stored after the first pass |
| EquipmentLog.CloseStale | app/commands/CheckFixEquipmentLog.php:44-61 | the first pass keeps the set of rows and keeps every closed row's end time present |
| EquipmentLog.ClassifyClosed | app/commands/CheckFixEquipmentLog.php:62-77 | the second pass keeps the set of rows |
| EquipmentLog.Sweep | app/commands/CheckFixEquipmentLog.php:42-78 | the sweep keeps the set of rows; the second pass runs on the table the first left |
| EquipmentLog.EquipmentLogRepository.GetActiveRecords | app/commands/CheckFixEquipmentLog.php:44 | returns the active rows of the stored table |
| EquipmentLog.EquipmentLogRepository.GetUnprocessedRecords | app/commands/CheckFixEquipmentLog.php:62 | returns the unprocessed rows of the stored table |
| EquipmentLog.EquipmentLogRepository.EndSession | app/commands/CheckFixEquipmentLog.php:51 | closes exactly the row with that id at the given time; no other row changes |
| EquipmentLog.EquipmentLogRepository.Save | app/commands/CheckFixEquipmentLog.php:75 | writes the in-memory copy back to its row; no other row changes |
| EquipmentLog.CheckFixEquipmentLog.Fire | app/commands/CheckFixEquipmentLog.php:42-78 | running the command leaves the table equal to `Sweep` of the table before, at that time |
| EquipmentLog.CheckFixEquipmentLog.CloseStaleSessions | app/commands/CheckFixEquipmentLog.php:44-61 | the first loop, over the active snapshot in any order, leaves the table equal to `CloseStale` of the table before |
| EquipmentLog.CheckFixEquipmentLog.ClassifyUnprocessed | app/commands/CheckFixEquipmentLog.php:62-77 | the second loop, over the unprocessed snapshot in any order, leaves the table equal to `ClassifyClosed` of the table before |
| SweepProperties.StaleHeartbeatEndsAtLastUpdate | app/commands/CheckFixEquipmentLog.php:47-51 | an active session whose last heartbeat is strictly older than an hour ends, processed, with finish time equal to that heartbeat |
| SweepProperties.SilentSessionEndsAfterFallback | app/commands/CheckFixEquipmentLog.php:53-57 | an active session with no heartbeat that started over an hour ago ends at exactly start + 60, and the same sweep then removes it as noise |
| SweepProperties.FreshSessionUntouched | app/commands/CheckFixEquipmentLog.php:47-58 | an active session that is not stale is left exactly as it was |
| SweepProperties.NoiseRemovedIff | app/commands/CheckFixEquipmentLog.php:65-74 | a closed unprocessed row ends up processed, and removed iff it lasted at most 60 seconds (or was already removed) |
| SweepProperties.ClosedRowsProcessed | app/commands/CheckFixEquipmentLog.php:65-75 | every row that is closed after the sweep is processed |
| SweepProperties.ActiveRowsNotClassified | app/commands/CheckFixEquipmentLog.php:65 | a row still active after the sweep is neither marked processed nor removed nor changed at all |
| SweepProperties.ProcessedRowsUntouched | app/commands/CheckFixEquipmentLog.php:44-77 | a row that was neither active nor unprocessed is untouched |
| SweepProperties.ClassifyChangesOnlyFlags | app/commands/CheckFixEquipmentLog.php:65-75 | the second pass changes only `removed` and `processed`, and never an active row |
| SweepProperties.SweepIdempotent | app/commands/CheckFixEquipmentLog.php:44-77 | a second sweep at the same time changes nothing |
| SweepProperties.SweepPreservesWellFormed | app/commands/CheckFixEquipmentLog.php:44-77 | the sweep keeps the row invariants (active iff unfinished, start before heartbeat and finish, processed only when closed, removed only when processed), never re-times a closed row, never clears `processed`, and removes only rows of at most 60 seconds |
| SweepProperties.SweepEach | app/commands/CheckFixEquipmentLog.php:42-78 | any sequence of scheduled sweeps keeps the row invariants and the set of rows |
| SweepProperties.ProcessedRowSettled | app/commands/CheckFixEquipmentLog.php:62-75 | a processed row is never changed again, however many sweeps run |
| SweepProperties.FinishedWriteOnce | app/commands/CheckFixEquipmentLog.php:44-61 | a closed row stays closed with the same finish time, however many sweeps run |
| SweepProperties.RepeatedSweepSameTime | app/commands/CheckFixEquipmentLog.php:42-78 | running the sweep any number of times at the same time gives the table one run gives |
| SweepProperties.ProcessedRowWithoutEndUntouched | app/commands/CheckFixEquipmentLog.php:62-66 | a processed, closed row with no finish time can be swept and is left alone, since only unprocessed rows reach the duration |
| SweepProperties.ExactlyOneHourOldStaysActive | app/commands/CheckFixEquipmentLog.php:53 | a session without heartbeat that started exactly an hour ago stays open: the comparison is strict |
| SweepProperties.RecentHeartbeatKeepsOldSessionOpen | app/commands/CheckFixEquipmentLog.php:47-53 | a recent heartbeat keeps a session open however long ago it started |
| SweepProperties.NoiseBoundary | app/commands/CheckFixEquipmentLog.php:69-71 | a 60-second session is removed and a 61-second one is kept |
| SweepProperties.HeartbeatScenario | app/commands/CheckFixEquipmentLog.php:47-75 | started at 0 with a heartbeat at 30 minutes and swept at 2 hours, a session ends at 30 minutes, processed and not removed |
| ACS.HandleDoor | app/controllers/ACSController.php:46-71 | a door response echoes the device and the time; `member` is non-empty iff the message is a lookup and the lookup found a fob, and then it is that fob's user id; boot logs one boot, heartbeat one heartbeat, lookup makes one lookup, and nothing else happens |
| ACS.HandleDevice | app/controllers/ACSController.php:73-90 | an equipment response is the device, the time and status `ok`; the device is fetched first; boot logs one boot, heartbeat one heartbeat; any other message only fetches the device; no key-fob lookup ever happens |
| ACS.Update | app/controllers/ACSController.php:29-44 | validation failure has no effect; otherwise the debug log comes first, a door message then has exactly the door handler's effects, an equipment message exactly the equipment handler's, an unknown type no other effect, and no response body is returned although the handler built one |
| ACSProperties.BootLoggedOnce | app/controllers/ACSController.php:49-50 | for doors and equipment, a boot causes exactly one boot log and no heartbeat log |
| ACSProperties.HeartbeatLoggedOnce | app/controllers/ACSController.php:51-52 | for doors and equipment, a heartbeat causes exactly one heartbeat log and no boot log |
| ACSProperties.FailedLookupDegrades | app/controllers/ACSController.php:53-64 | a door lookup whose key-fob lookup throws still answers, with an empty member |
| ACSProperties.SuccessfulLookupAnswersMember | app/controllers/ACSController.php:55-66 | a door lookup that finds the fob answers with the fob's user id |
| ACSProperties.EquipmentLookupDoesNothing | app/controllers/ACSController.php:75-81 | a `lookup` from equipment only fetches the device: no lookup, no log |
| ACSProperties.EquipmentBootFetchesThenLogs | app/controllers/ACSController.php:75-78 | an equipment boot fetches the device, then logs one boot, and nothing else |

## Left out

- The clock: the source reads `Carbon::now()` afresh on every iteration of the first loop. The model uses one `now` for the whole sweep.
- `addMinute()` on `$log->started` changes the in-memory copy of the row. That copy is never saved, so the model leaves the stored `started` unchanged.
- EquipmentLog.CheckFixEquipmentLog.Fire: requires every closed, unprocessed row to have a finish time. On such a row without one the source fails with a call on null at the duration, and that failure is not modelled. Processed rows without a finish time are allowed and left alone.
- The internals of `endSession`, `getActiveRecords` and `getUnprocessedRecords` are not part of this model. They are taken to close one row, and to select the active rows and the unprocessed rows.
- Concurrency: heartbeats racing the sweep, overlapping sweeps and any compare-and-set are absent from the code and not modelled.
- Fault isolation per record and store failures are not modelled.
- Session creation and heartbeat application (`logBoot`, `logHeartbeat` in `DeviceRepository`) are not part of this model. They appear only as effects.
- The usage totals (`getTotalTime`) are not part of this model.
- ACS.HandleDevice: a failure of `getByName` is not modelled. The call is an effect whose result the handler never uses.
- The validator's rules are a boolean parameter. JSON encoding, the `Content-Length` header and the empty `get()` action are left out.
- The key-fob lookup is a parameter that gives the fob found, or none when the lookup throws.
- The member CRUD controller, the subscription-charge repository, the activity view and the browser script are outside the modelled core.
