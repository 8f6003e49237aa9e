# rewardd in Dafny

rewardd is a time bank: a server holds a balance of seconds for each user and charges play
time by heartbeat; an agent on the PC mirrors that balance, counts it down and locks the
screen. This project models its four stateful cores and proves what they keep over every
run.

- **Time bank** (`Times`, `Accounting`, `Ledger`, `JsonStore`, `SqlStore`, `Stores`,
  `Conformance`, `Charging`, `Traces`, `Migration`). The rules act on a mutable `User` record.
  The two engines are classes, one over a map of records and a file, one over table rows and
  transactions, and every method of both is proved to step one abstract `Ledger`.
  `Conformance` says exactly on which runs the two answer alike, and `Stores` is the interface
  in front of them, with whole runs of calls on a store of either kind. `Charging` says what a
  run charges without looking at any session field, replays the audit log, and gives the
  clamped balance a closed form; `Traces` tells every reply and every audit record from the
  calls alone.
- **The JSON file** (`CrashSafety`). Every system call of a flush is a step, any of them can
  fail, and the process can crash between any two.
- **The agent** (`LockEngine`, `LockRuns`, `LockTime`, `LockCauses`, `LockWorth`,
  `BrainFace`, `FaceRuns`, `FaceProgress`, `PinReplies`, `PinUnlocks`, `Watchdog`, `Warning`). Each atomic load and store of the controller is a step of a
  heartbeat thread, a countdown thread or a PIN handler; the brain and its face exchange
  messages over a queue, one poll read or one store at a time.
- **The configuration file** (`Text`, `ConfigFile`, `ConfigRoundTrip`). The printer and the
  line parser, with the exact domain on which reading undoes printing.

`Int64`, `Names` and `Seqs` hold 64-bit arithmetic, the byte order of names and a few
facts about sequences.

## How the model reads the code

- A time is a wall-clock instant, an integer count of nanoseconds since the Unix epoch, and
  perhaps a reading of the monotonic clock, which `time.Now` adds. `Time.Sub` goes by the
  readings if both times have one and by the instants otherwise, and saturates. Memory keeps
  readings; the JSON file and the tables do not. Go's zero time is the instant it denotes,
  without a reading. A charge is the whole part of a duration in
  seconds; the code gets it by way of a float, which is the same number for every duration
  below 2^23 seconds (97 days), so for every cap on a gap below that.
- Balances, deltas and remaining seconds are 64-bit and wrap. A grant that passes the top of
  the range empties the bank (`DepositIsClampedSum`); a server that answers the least 64-bit
  integer makes the countdown wrap (`BoundHoldsExactly`). Neither is excluded by a
  precondition.
- The local PIN branch runs whenever the unlock call fails, and any status but 200 is a
  failure, a refusal included. The comments in the code call that branch "offline"; the
  model follows the code.
- The comment in `accounting.go` calls the engines identical. They are not when the wall
  clock is set while the server runs: the JSON engine then charges by the monotonic clock and
  the SQL engine by the wall clock (`StepBackDiverges`, `ChargesAgreeExactly`). They are on
  every run whose beats fall on instants the users table can store and whose readings are all
  at one offset from the wall clock, and on no larger set of instants and offsets:
  `EnginesAgreeExactly`.
- "Unlocked implies time remaining" is false of the agent (`LostUpdateUnlocksAtZero`,
  `CrossedWritersUnlockAtZero`). With every thread at rest it holds exactly of those runs
  whose responses never unlock (`RestsWithTimeExactly`); if no thread's stores come between
  the stores of another, it holds exactly when every response that unlocks carries time
  (`SerialHasTimeExactly`). The bound on play holds in spite of the lost updates.
- "The k-th verdict answers the k-th PIN" is false once an attempt times out, as the face
  waits 5 seconds and the brain's own call up to 8 (`LateReplyMismatches`). Attempts can also
  overlap, as the overlay starts each on its own thread and forgets a waiting one when it
  hides or shows. An attempt is sure of its own answer exactly when, as it begins, the face
  has read a reply to every PIN sent and no other attempt has still to send
  (`OwnAnswerExactly`).
- "A beat never credits" is false of a negative cap on a gap, which the server's settings
  admit; it holds exactly of caps above minus one second (`NeverCreditsExactly`).
- A face that has lost its connection stays unlocked for the moment between noticing and its
  next two stores; `UnlockedFaceWasTold` says so.
- Concurrent code is a state machine over values: one datatype of steps, one function that
  applies a step, and theorems over all sequences of steps. A step whose thread is not in a
  position to take it changes nothing.
- A failure of a system call, a statement or a write is a `fault` parameter of the method
  that makes it; clock readings are parameters too.

## Model

| member | source | states |
|---|---|---|
| `Accounting.User.ApplyGrant` | internal/store/accounting.go:11-16 | the record after adding seconds is the one with the clamped, wrapping sum and no other field changed |
| `Accounting.User.ApplySetBalance` | internal/store/accounting.go:20-27 | the balance becomes the non-negative target, the delta returned is the signed change, no other field changes |
| `Accounting.User.ApplyHeartbeat` | internal/store/accounting.go:33-56 | the whole record after a beat, free or charged, and play is allowed exactly when a positive balance is left |
| `Accounting.User.Snapshot` | internal/store/accounting.go:59-71 | the status of the record: playing within 90 s of the latest beat of a live session, with the machine only then |
| `Accounting.DepositIsClampedSum` | internal/store/accounting.go:11-16 | a grant leaves max(balance + seconds, 0) if and only if the sum stays in the 64-bit range; above it the bank is emptied |
| `Accounting.SetIsGrantOfDelta` | internal/store/accounting.go:20-27 | setting a balance does what granting its logged delta does, even where the delta wraps |
| `Accounting.NeverCreditsExactly` | internal/store/accounting.go:33-56 | no beat raises any non-negative balance if and only if the cap on a gap is above minus one second |
| `Accounting.CapCredits` | internal/store/accounting.go:37-43 | under any other cap every resumed beat, whenever it comes, credits the whole seconds of the cap |
| `Accounting.SecondsDropsAFraction` | internal/store/accounting.go:43 | less than a second is dropped, on the side of zero |
| `JsonStore.Store.Open` | internal/store/store.go:79-101 | an absent file starts an empty ledger and writes it, an empty one starts empty, an unreadable or garbled one is an error and gives no store, a whole one is loaded, without readings |
| `JsonStore.Store.Load` | internal/store/store.go:93-100 | one fresh record for each decoded entry, with the entry's fields, and nothing else |
| `JsonStore.Store.Flush` | internal/store/store.go:104-117 | the file becomes the image of the memory, less the clock readings, or, if any call fails, stays as it was |
| `JsonStore.Store.GetOrCreate` | internal/store/store.go:119-126 | the record of the name, the same object if it is known, a new zero one otherwise, all others in place |
| `JsonStore.Store.LogGrant` | internal/store/store.go:128-135 | one record more in the full history, and the slice is again its last `maxGrants` records |
| `JsonStore.Store.EnsureUser` | internal/store/store.go:138-143 | steps the ledger, creating the user if unknown and changing no record otherwise |
| `JsonStore.Store.Grant` | internal/store/store.go:146-153 | memory steps the ledger, also when the write fails; the file is the new image or untouched; the reply is the new balance |
| `JsonStore.Store.SetBalance` | internal/store/store.go:156-163 | likewise, with the reason prefixed and the delta logged |
| `JsonStore.Store.Heartbeat` | internal/store/store.go:166-172 | likewise, leaving the audit log as it was |
| `JsonStore.Store.Status` | internal/store/store.go:175-183 | the status of a known user, and unknown user otherwise |
| `JsonStore.Store.List` | internal/store/store.go:186-195 | one status for each record, going up by user as strings compare, whatever order the map yields them in; with every record under its own name, the one listing there is |
| `Ledger.VisitedIsListing` | internal/store/store.go:189-193 | whatever order the records are visited in, sorting their statuses by user gives a listing |
| `Ledger.ListingIsUnique` | internal/store/store.go:193 | with every record under its own name there is one listing only, strictly increasing by user |
| `Names.BeforeIsSmaller` | internal/store/store.go:193 | one name sorts before another if and only if, where they first differ, it ends or has the smaller character |
| `Ledger.ListingAscends` | internal/store/store.go:186-195 | of any two entries of a listing with different users the earlier is the smaller in that sense |
| `Ledger.PlainLosesReadings` | internal/store/store.go:64-67 | a file keeps every balance, session, and audit record, less the clock readings of their times |
| `SqlStore.Store.LoadUser` | internal/store/sqlite.go:70-89 | the account the row stands for, and a zero one when there is no row |
| `SqlStore.Store.SaveUser` | internal/store/sqlite.go:91-110 | the table then holds that account, as far as its time can be stored, and every other row as before |
| `SqlStore.Store.LogGrant` | internal/store/sqlite.go:112-124 | one record more under the next id, and the rows left are exactly those with the newest `maxGrants` ids |
| `SqlStore.Store.EnsureUser` | internal/store/sqlite.go:127-150 | fails exactly when a statement it executes does, leaving all rows as they were; otherwise steps the ledger |
| `SqlStore.Store.Grant` | internal/store/sqlite.go:127-168 | fails exactly when a statement of its transaction does, leaving all rows and the id sequence as they were; otherwise steps the ledger and replies with the new balance |
| `SqlStore.Store.GrantTx` | internal/store/sqlite.go:155-166 | the account and the history after the statements of a grant, none of which failed |
| `SqlStore.Store.SetBalance` | internal/store/sqlite.go:127-186 | the same for setting a balance |
| `SqlStore.Store.SetBalanceTx` | internal/store/sqlite.go:173-184 | the account, and the delta and prefixed reason recorded, after the statements of a setting, none of which failed |
| `SqlStore.Store.Heartbeat` | internal/store/sqlite.go:127-204 | the same for a beat, which logs nothing and fails under none of the log's statements |
| `SqlStore.Store.Status` | internal/store/sqlite.go:207-228 | the reply the ledger gives, unless the query fails |
| `SqlStore.Store.List` | internal/store/sqlite.go:231-258 | fails exactly if the query, the end of the scan or the scan of a row that exists does; otherwise the listing the ledger gives, going up by user |
| `Stores.Store.Call` | internal/store/store.go:48-58 | any call on a store of either kind steps that engine's ledger and gets the ledger's answer; it fails exactly when it meets a fault of something it does, and then leaves SQL rows alone but has changed the JSON memory |
| `Stores.Drive` | internal/store/store.go:48-58 | the replies to a whole run of calls on a store are the ledger's answers, and the store ends in the ledger's state |
| `Stores.DriveBoth` | internal/store/accounting.go:5-8 | two new stores, one of each kind, driven by the same calls: the JSON replies are those traced from the calls alone; with storable beats and readings at one offset the SQL replies are the same, and both end with the same accounts, less the readings, and the same trimmed audit log |
| `SqlStore.NewerInInterval` | internal/store/sqlite.go:121-123 | with ids that fill an interval, the number of ids newer than one is its distance from the last |
| `SqlStore.RowsAreLastRecords` | internal/store/sqlite.go:112-124 | the rows in id order are the last `maxGrants` records of the full history |
| `SqlStore.StampKeepsInstant` | internal/store/sqlite.go:112-116 | a record keeps its instant if and only if 64 bits of nanoseconds hold it |
| `SqlStore.StoredRecordsKeep` | internal/store/sqlite.go:112-116 | user, seconds and reason of a record are stored as they are |
| `Conformance.LoadOfSave` | internal/store/sqlite.go:70-110 | saving then loading gives the account back if and only if its time has no reading and is storable: the zero time, or a 64-bit nanosecond count other than 0; at a storable instant only the reading is lost, at any other more is |
| `Conformance.StorableRunsAgree` | internal/store/accounting.go:5-8 | on every run with storable beats and readings at one offset the SQL state is the JSON state less the readings, the logs differ only by the encoding of their times, and all replies agree |
| `Conformance.UnstorableBeatDiverges` | internal/store/sqlite.go:91-95 | at any unstorable instant, a run of three calls gets different replies from the two engines |
| `Conformance.ClockSetDiverges` | internal/store/sqlite.go:84-95 | for any beat with a reading and any other offset, so does a run in which the wall clock is set between the beat and a look at the dashboard |
| `Conformance.ChargesAgreeExactly` | internal/store/accounting.go:34-48 | a resumed beat with readings is charged the same by both engines under every cap if and only if both clocks saw the same whole seconds pass |
| `Conformance.StepBackDiverges` | internal/store/accounting.go:34-48 | with the wall clock stepped back 30 s between beats 20 s apart, one engine charges 20 seconds and the other none |
| `Conformance.EnginesAgreeExactly` | internal/store/accounting.go:5-8 | over a set of wall instants for beats and a set of offsets of the monotonic clock, the engines answer every run alike if and only if each instant is storable and, if there are any, there is at most one offset |
| `Conformance.TrimmedLogsAgree` | internal/store/store.go:128-135 | in every state reached, the SQL rows by id and the trimmed JSON slice are the same last records of the whole history |
| `Conformance.TableTimesAreStorable` | internal/store/sqlite.go:84-88 | every time read from a users table is storable and without a reading, which is what the migration lemmas ask of the destination |
| `Charging.SessionIsLastBeat` | internal/store/accounting.go:34-55 | the stored session is the user's latest beat, live exactly if that beat was allowed, whatever grants and settings followed |
| `Charging.ChargesExactly` | internal/store/accounting.go:33-56 | the balance, and what any next beat is charged, are those of a definition without session fields: only the time from an allowed beat to the next beat of the same user on the same machine is charged |
| `Traces.AnswerIsTraced` | internal/store/store.go:146-195 | after any run, every reply is the one traced from the calls: the balance after the call for a grant, a setting or a beat, allowed exactly if it is positive; for a status the balance, and playing exactly if the latest beat was allowed and is within 90 s; for a listing every known user once, going up by name |
| `Traces.AnswersAreTraced` | internal/store/store.go:146-195 | so are all replies of a run, each by the calls before it |
| `Traces.KnownExactly` | internal/store/store.go:119-126 | a user is known exactly if some call other than a question has named it |
| `Traces.LogIsTraced` | internal/store/store.go:146-163 | the untrimmed log has each grant as asked for and each setting as the change of balance it made, with its reason prefixed |
| `Charging.EventIsTheChange` | internal/store/store.go:146-172 | an operation changes one user's balance by exactly the record or charge it leaves in the journal |
| `Charging.ReplayReproducesBalances` | internal/store/store.go:146-163 | the untrimmed audit log interleaved with the charges replays, from nothing, to every user's balance |
| `Charging.ClampedClosedForm` | internal/store/accounting.go:11-16 | the balance is the greatest of start plus all changes and the sums of the changes after some point |
| `Charging.ClosedFormExactly` | internal/store/accounting.go:11-16 | that form describes the balance after each of the first n changes if and only if no addition among them passes the 64-bit range |
| `Charging.FoldIsMonotoneAndLipschitz` | internal/store/accounting.go:11-16 | if every addition that overflows the larger of two starting balances overflows the smaller too, the larger ends no smaller, and ahead by no more than it started |
| `Charging.OrderKeptExactly` | internal/store/accounting.go:11-16 | the order of two balances survives each of the first n changes if and only if that holds of these changes |
| `Charging.SessionPaysNominal` | internal/store/accounting.go:33-56 | a session still allowed has paid the sum of its capped gaps, no more and no less, by any clock that measures them |
| `Charging.MonotonicMeasures` | internal/store/accounting.go:36-43 | if every time has a reading, the monotonic clock does, however the wall clock is set |
| `Charging.WallMeasures` | internal/store/accounting.go:36-43 | if all readings are at one offset, the wall clock does, whether times have readings or have been stored |
| `Charging.NominalBounds` | internal/store/accounting.go:35-43 | a session's charge is at most the beats times the cap and at most the whole seconds spanned, and short of the span by less than a second a beat if no gap is over the cap |
| `Charging.ExtraBeat` | internal/store/accounting.go:35-43 | one more beat inside an uncapped gap never raises the charge and lowers it by at most a second |
| `CrashSafety.ImageIsTrimmedLedger` | internal/store/store.go:128-135 | trimming at every append keeps what trimming the whole history would, over any operations and reopenings |
| `CrashSafety.CallTraceIsRun` | internal/store/store.go:104-117 | each call of the JSON engine, with or without a fault, is a run of the crash model's steps that is acknowledged exactly when it returns no error |
| `CrashSafety.StepKeepsInv` | internal/store/store.go:79-117 | every step, failure, crash and restart keeps the file equal, less the readings, to the memory after a prefix of the history that has every acknowledged operation |
| `CrashSafety.AcknowledgedIsDurable` | internal/store/store.go:104-117 | an acknowledged operation is at its place in every later history, through any failures, crashes and restarts |
| `CrashSafety.RestartRecoversPrefix` | internal/store/store.go:79-101 | a restart recovers the memory, less its readings, after some prefix of what happened since the first file, every acknowledged operation in it |
| `CrashSafety.NeverCorrupt` | internal/store/store.go:110-116 | started on any file that opening accepts, the program never leaves a torn one, and a whole one once anything was acknowledged |
| `CrashSafety.CrashesAndRecovers` | internal/store/store.go:79-101 | from any state reached, the process can crash and be started again, and then holds what the file reflected |
| `Migration.MigrateBalances` | internal/store/open.go:43-55 | between stores of any kinds: fails exactly if the listing does or a write meets a fault, having made the writes up to the first that did, with the count 0; otherwise makes one setting for each listed user, counts them, and balances are copied as the next row says |
| `Migration.MigrationCopiesBalances` | internal/store/open.go:39-55 | each source user has the source balance, known users keep their session fields, all other users are unchanged |
| `Migration.MigrationLogs` | internal/store/open.go:49-53 | one record a listed user is added to the log, after those there, marked as a migration |
| `Migration.MigratingAgainChangesNothing` | internal/store/open.go:39-55 | a second migration of the same balances, at its own times, changes no account and logs one zero delta a user |
| `LockEngine.StepSpends` | cmd/agent/main.go:244-304 | while no value is the least 64-bit integer, no step but an arriving response raises played seconds plus potential, also when a store is lost between a load and a store |
| `LockEngine.PlayIsBounded` | cmd/agent/main.go:200-304 | over any interleaving, from any state and with any responses without the least 64-bit integer, play and potential together grow by at most what the responses are worth |
| `LockRuns.BoundedPlay` | cmd/agent/main.go:188-304 | from the locked start, the seconds that pass the locked check are at most the sum over arrived responses of max(R - 1, 0), plus one for each that unlocks, if no R is the least 64-bit integer |
| `LockRuns.BoundHoldsExactly` | cmd/agent/main.go:298-304 | the bound holds on all runs over a set of responses if and only if none of them carries the least 64-bit integer or none of them unlocks |
| `LockRuns.BoundIsTight` | cmd/agent/main.go:274-296 | one allowed response of n seconds can be played for exactly n seconds, which is all it is worth |
| `LockRuns.OutageOnlySpends` | cmd/agent/main.go:240-243 | while no response arrives, play is at most the potential in hand |
| `LockWorth.SpentLocks` | cmd/agent/main.go:274-304 | an unlocked engine left alone plays exactly the seconds it has and then is locked at 0 |
| `LockWorth.LocalPinLands` | cmd/agent/main.go:210-216 | after a failed call the local PIN leaves graceMin times 60 seconds, as 64 bits hold them, and unlocks |
| `LockWorth.LocalPinIsWorthItsMinutes` | cmd/agent/main.go:210-216 | that is worth exactly so many seconds of play, if they are in range |
| `LockWorth.AcceptedPinIsWorthItsSeconds` | cmd/agent/main.go:202-208 | a PIN the server accepts is worth exactly the seconds it answers |
| `LockWorth.EveryWorthIsPlayed` | cmd/agent/main.go:244-304 | for every response there is a run that plays all its responses are counted as worth, so that no count in the bound is too high |
| `LockCauses.LockHasCause` | cmd/agent/main.go:240-296 | each change from unlocked to locked is the countdown storing the lock it computed from at most a second left, or the last store of a denied beat |
| `LockCauses.RemainingHasCause` | cmd/agent/main.go:203-290 | the seconds change only when the countdown stores what it computed or a thread stores its response's |
| `LockCauses.OnlineHasCause` | cmd/agent/main.go:246-254 | the connection flag goes down only with a failed beat and up only with an answered one |
| `LockCauses.FailedBeatKeepsLastKnown` | cmd/agent/main.go:240-252 | a failed beat clears the connection flag and keeps lock, seconds and threads |
| `LockCauses.RefusedPinChangesNothing` | cmd/agent/main.go:200-219 | a PIN refused by the server, or wrong or without a local PIN after a failed call, changes nothing |
| `LockCauses.MayUnlockExactly` | cmd/agent/main.go:200-258 | a resting thread comes to unlock exactly through an allowed beat, an accepted PIN or a matching non-empty local PIN after a failed call |
| `LockCauses.ArrivalExactly` | cmd/agent/main.go:200-258 | the responses counted in a run are exactly those that set a thread going |
| `LockRuns.UnlockerHasCause` | cmd/agent/main.go:200-219 | a thread about to unlock was set going by an allowed beat, an accepted PIN or a matching non-empty local PIN after a failed call, and has been at it ever since |
| `LockRuns.UnlockHasCause` | cmd/agent/main.go:200-263 | each change from locked to unlocked is the last store of such a thread and uses that cause up |
| `LockRuns.UnlockedHasCause` | cmd/agent/main.go:188-258 | an unlocked engine was unlocked by one such store, with its cause before it, and has not been locked since |
| `LockTime.LostUpdateUnlocksAtZero` | cmd/agent/main.go:274-296 | for any allowed response with time, two beats and the countdown can leave the screen unlocked with 0 remaining and every thread at rest |
| `LockTime.CrossedWritersUnlockAtZero` | cmd/agent/main.go:200-258 | so can a PIN unlock and a denied beat without the countdown |
| `LockTime.RestsWithTimeExactly` | cmd/agent/main.go:200-296 | over all interleavings of responses from a set, an unlocked engine at rest has time remaining if and only if none of the responses unlocks |
| `LockTime.SerialHasTimeExactly` | cmd/agent/main.go:200-296 | over those in which no store splits another thread's stores, an unlocked engine has time whenever no thread is mid-store if and only if every response that unlocks carries time |
| `LockTime.OrdinaryRunIsSerial` | cmd/agent/main.go:244-296 | a beat and an undisturbed countdown split nobody's stores |
| `BrainFace.StaysHonest` | cmd/agent/service_windows.go:143-160 | every state sampled or pushed consists of fields the brain had, in order, since the connection was made |
| `BrainFace.StaysInOrder` | cmd/agent/service_windows.go:121-162 | what was pushed is what the face consumed, has in hand or will find in the queue, in order, whatever PIN replies are in between |
| `BrainFace.StaysMirror` | cmd/agent/face_windows.go:71-99 | between messages the face's three fields are those of the last state consumed, and it is locked without one |
| `FaceRuns.UnlockedFaceWasTold` | cmd/agent/face_windows.go:49-101 | an unlocked face has a connection on which its last consumed state said unlocked, as the brain was at some instant since connecting, or is closing a lost one |
| `FaceRuns.OnlyStatesMoveTheLock` | cmd/agent/face_windows.go:77-84 | only a state message's own lock flag, or failing closed, moves the face's lock; a PIN reply never does |
| `FaceRuns.HistoryIsTheBrainsRun` | cmd/agent/service_windows.go:121-162 | the connection never disturbs the brain: its recorded states are the run of its own steps |
| `FaceRuns.FaceUnlockHasCause` | cmd/agent/face_windows.go:16-20 | a connected, unlocked face rests on an instant since it connected at which the brain stood unlocked by a store that an allowed beat, an accepted PIN, or a matching local PIN after a failed call had set going |
| `FaceRuns.MirrorConverges` | cmd/agent/service_windows.go:143-161 | once the brain's fields stand still, one more poll and a drained queue make face and brain equal, whatever half-read sample was underway |
| `FaceProgress.FaceCatchesUp` | cmd/agent/face_windows.go:71-85 | any connected face, left alone with a brain that stands still, shows what the brain holds after one poll and as many steps as it has states to store |
| `FaceProgress.LostPipeFailsClosed` | cmd/agent/face_windows.go:54-99 | a pipe that is lost, or cannot be dialled, leaves the face locked and offline with the seconds as they were |
| `FaceProgress.DialConnects` | cmd/agent/face_windows.go:67-71 | a dial that succeeds has a pipe on which nothing was pushed yet |
| `FaceProgress.PushesAreNews` | cmd/agent/service_windows.go:146-158 | no state is pushed twice in a row |
| `FaceProgress.SampleIsReadFieldByField` | cmd/agent/service_windows.go:153 | a sample has each field as it was when that field was read |
| `PinReplies.RepliesMatch` | cmd/agent/face_windows.go:105-144 | if attempts do not overlap and none times out, the k-th one returns the brain's answer to the k-th PIN, which is its own |
| `PinReplies.LateReplyMismatches` | cmd/agent/face_windows.go:126-131 | a run in which a late reply is taken for the next attempt's |
| `PinReplies.VerdictIsNextAnswer` | cmd/agent/face_windows.go:105-144 | whatever timed out and whatever overlaps, the verdict returned is the answer to the first PIN whose reply was unread when the attempt began |
| `PinReplies.AttemptOwns` | cmd/agent/face_windows.go:105-144 | if no reply is outstanding and no other attempt has still to send as it begins, only the answer to its own PIN can reach an attempt's channel |
| `PinReplies.OwnAnswerExactly` | cmd/agent/face_windows.go:105-144 | every way an attempt can return gives the answer to its own PIN if and only if, as it begins, no reply to an earlier PIN is outstanding and no other attempt has still to send |
| `PinReplies.OwnAnswerArrives` | cmd/agent/face_windows.go:105-144 | and then it can get its answer, whichever the brain decides |
| `PinReplies.OrderlyRunsExist` | cmd/agent/face_windows.go:105-144 | attempt after attempt, any PINs can get any answers |
| `PinReplies.ReturnStarvesOthers` | cmd/agent/face_windows.go:113-121 | an attempt that returns, or one that begins, takes the slot from whoever has it |
| `PinReplies.StarvedForGood` | cmd/agent/face_windows.go:113-131 | an attempt that lost the slot with nothing coming can only time out |
| `PinUnlocks.MoveKeeps` | cmd/agent/service_windows.go:127-141 | the i-th answer is the submit function's on the i-th PIN, and one that grants is written back only after the thread it set going has unlocked |
| `PinUnlocks.TrueVerdictUnlocked` | cmd/agent/main.go:200-219 | an attempt that begins with nothing outstanding or unsent and returns true: since then that very PIN was accepted, by the server or as the local one after a failed call, and the thread this set going stored the seconds the server said, or graceMin minutes, and unlocked the screen |
| `PinUnlocks.AttemptGetsThrough` | cmd/agent/main.go:200-219 | every PIN gets its verdict: true with the screen unlocked and those seconds in hand, or false with the engine untouched |
| `Watchdog.OneFaceASession` | cmd/agent/service_windows.go:169-212 | in every interleaving no two live workers share a session and `running` is exactly the set of held sessions |
| `Watchdog.ScannedSessionIsHeld` | cmd/agent/service_windows.go:180-189 | a scan never passes a session without its slot held |
| `Watchdog.SlotGivenUpByItsWorker` | cmd/agent/service_windows.go:190-204 | a slot is given up only by a worker of that session that is done |
| `Watchdog.FinishedScanStartedAll` | cmd/agent/service_windows.go:180-204 | when a scan ends, every session it returned has had a worker started |
| `Watchdog.FreeSessionIsLaunched` | cmd/agent/service_windows.go:176-204 | a session without a slot gets a new worker and its slot at the next scan |
| `Watchdog.LostFaceFreesItsSlot` | cmd/agent/service_windows.go:190-203 | a face that exits, or fails to launch once its wait is over, gives its slot up |
| `Watchdog.FailedLaunchHoldsItsSlot` | cmd/agent/service_windows.go:193-202 | until then a failed launch holds it |
| `Warning.WarnTracker.Check` | cmd/agent/warn.go:29-39 | warns exactly at the first unlocked observation with 1 to 300 seconds left since the start or the latest re-arming one |
| `Warning.FiveMinutesIsLow` | cmd/agent/warn.go:9-37 | 1 to 300 seconds unlocked is low, locked or 301 and more re-arms |
| `Warning.FirstLowUnlessSpent` | cmd/agent/warn.go:18-22 | the fired flag holds exactly the fact about the past that this needs |
| `Warning.FiresAreBounded` | cmd/agent/warn.go:18-22 | warnings exceed the stretches of re-arming observations by at most one |
| `Warning.BoutsReachTheBound` | cmd/agent/warn.go:18-22 | and for any number of stretches there are observations that reach it |
| `Warning.DescentWarnsOnce` | cmd/agent/main.go:298-304 | a countdown from above the threshold to the lock, seen every second, warns exactly once |
| `ConfigFile.WriteConfigFile` | cmd/agent/config.go:138-159 | the text is the header and one line for each non-empty setting, in order |
| `ConfigFile.ReadConfigFile` | cmd/agent/config.go:178-205 | each key maps to the value of the last scanned line that sets it, and no other key is in the map |
| `ConfigRoundTrip.EnvironmentOverFileOverDefault` | cmd/agent/config.go:79-111 | for each setting by its names, an environment variable that is not empty wins over the file and the file over the default, host, 20 or 30; a number that does not parse is the default |
| `ConfigRoundTrip.EntryOfLooseLine` | cmd/agent/config.go:189-202 | a line may be indented and have blanks about the sign, and its key in any case |
| `ConfigRoundTrip.KeysIgnoreCase` | cmd/agent/config.go:197 | a key with some letters raised is that key |
| `ConfigRoundTrip.QuotesAreTaken` | cmd/agent/config.go:198-199 | a value in quotes of either kind is read without them, with the blanks inside |
| `Text.TrimExactly` | cmd/agent/config.go:189-199 | trimming takes characters of the kind from both ends until none is left there |
| `Text.CarriageReturnIsDropped` | cmd/agent/config.go:187-189 | a line ended as on Windows is the same line |
| `Text.AtoiOfItoa` | cmd/agent/config.go:239-244 | every 64-bit integer printed in decimal parses back to itself |
| `Text.ScanOfUnlines` | cmd/agent/config.go:187-189 | lines without newlines are scanned back, up to the first one too long for the scanner and without a trailing carriage return |
| `ConfigRoundTrip.EntryOfFieldLine` | cmd/agent/config.go:144-148 | a printed line, scanned, sets its own key to the cleaned value, whatever the value contains |
| `ConfigRoundTrip.ScannedIsReach` | cmd/agent/config.go:187-204 | a printed file gives each key its field's cleaned value unless an earlier or its own line is too long |
| `ConfigRoundTrip.RoundTripOnHost` | cmd/agent/config.go:71-159 | on a given host, printing then resolving gives the configuration back if and only if it is printable, or its machine is the host's name, the file gives none, and every other setting survives |
| `ConfigRoundTrip.RoundTripExactly` | cmd/agent/config.go:71-159 | it does so on every host if and only if each string is one line, fixed by the cleaning and short enough to scan, and the machine is not empty |

## Left out

- HTTP routing, authentication, JSON request bodies, float minutes and the dashboard of the server: plumbing around the store calls.
- JSON and message encoding: encoding and decoding are taken to be inverse, but for the clock readings of times; the file's and the wire's syntax are not modelled.
- SQL text, the driver, WAL and the schema upgrade: a table is a map, a transaction is all-or-nothing, the id sequence is rolled back with it. Opening an existing database is not modelled.
- SqlStore.Store.List: the scan of a row is written as `LoadUser`, and `ORDER BY` by the contract of `SelectNames`.
- JsonStore.Store.List: `sort.Slice` is an insertion sort here; the contract fixes the result up to the order of records that share a name, which only a file edited by hand can hold.
- Migration.MigrateBalances: the text of the error, which names the user, is left out.
- SqlStore.Store.SaveUser: `UnixNano` outside its 64-bit range is undefined in Go; the model lets it wrap.
- CrashSafety.AcknowledgedIsDurable: a crash is that of the process; a power loss that undoes a completed write or rename is outside the model, as the code does not sync.
- A reading of the monotonic clock is an integer without a bound; Go adds one only to instants between 1885 and 2157.
- The heartbeat interval the server can change, tickers, waits and context cancellation: steps may come at any pace, and nothing is claimed about how soon.
- LockEngine.PlayIsBounded: the two `online` stores and both PIN branches are modelled, the log lines and the interval store are not.
- The mutexes of the stores and of the face: each store method runs alone, and the face's slot is read and written in single steps.
- BrainFace.StaysInOrder: a lost pipe is dropped with what it holds; the brain's loop on the dead connection, which no face reads any more, is not followed. Each face has its own pipe and state, so one face is modelled. PIN replies may be written at any time here; `PinUnlocks` ties them to the engine.
- PinReplies.OwnAnswerExactly: an attempt without a connection and a failed send return at once and are not attempts here; reconnecting while one is underway is not modelled. The overlay's own state, which shows the verdict, is left out.
- `LockController`, the connection loops and the watchdog are values moved by steps, not classes: every one of their fields is shared between threads.
- Win32 overlay, keyboard hook, service manager, session tokens and process launch: `activeSessions` returns any list, and a face may exit at any time.
- ConfigRoundTrip.RoundTripOnHost: the round trip is for an empty environment and no flag but `-config`; flag parsing, `scanArgValue`, `validate` and the default path are not modelled. A host whose name has a newline in it and is the machine's name is left out.
- ConfigFile.ReadConfigFile: letters that lower-casing takes outside ASCII keep their case, in keys that no setting has; text is a sequence of Unicode scalars, so bytes that are not UTF-8 are outside the model. An unreadable file is the empty text.
- `Kind` and `Open` of the stores, build information, installers and the log fan-out: easy or foreign.
