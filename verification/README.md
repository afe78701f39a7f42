# TYPXEN firmware: what a job can and cannot do

The firmware takes a schedule of key strokes as chunks over Wi-Fi, stages it in flash, checks it
against a binary format and two SHA-256 digests, and types it over Bluetooth as key-down and release
pairs. These Dafny modules model that path, from the chunk request to the last release, together with
the small protocols around it, and prove what a run keeps whatever the flash, the clock, the link,
the other task and the power supply do.

The main results:

- **Requests** (`Device.Board.Serve`, `Requests`). Each request is answered, and moves the board, exactly as
  a relation on snapshots says: which check fails first, what a chunk changes, when a start is refused,
  taken back or carried through. From that relation alone, over every sequence of requests: every run was
  earned by a begin and a finalization of its own, and typed the file that the chunk requests between the
  two had put together (`Requests.EveryRunIsEarned`). The same sequence is a run of the crash-marker
  protocol (`BoardSteps.ServedIsStepped`).
- **Runs** (`JobRuns`). Whatever requests and link events arrive during its calls, a run typed a beginning
  of the keys of a file with the announced length and SHA-256, and all of them if it reported success; it typed
  nothing before a confirmed release and the whole countdown; it was started when the safety machine was
  ready, with the history that takes (`JobRuns.RunHasSafetyHistory`); it kept order (`JobRuns.RunIsOrderly`);
  on success it slept its file's declared time, by less than three ticks a record more
  (`JobRuns.RunTakesDeclaredTime`); and a stop that stands lets at most one more key-down or wait begin, and
  no further slice of sleep (`JobRuns.StandingStopHalts`).
- **Stops** (`HidLink`, `ExecutionLaws`, `StopRace`). When the stop flag is up, when other runs can lower
  it, when a stop is obeyed, and exactly when one that came before the executor's first call is lost.
- **Upload** (`Upload`, `ChunkMap`, `ChunkRuns`). Every received chunk is whole, has the checksum it was
  sent with and is what the flash holds; no request for one chunk disturbs another; the order of arrival and the
  repeats do not matter; the received-bytes counter forces every chunk to be there. Flash is modelled
  as flash: a write can only clear bits, so the erase before a chunk is part of the proof.
- **Format** (`ScheduleCodec`, `Verifier`). The verifier accepts exactly the encodings of valid
  schedules, and encoding and decoding undo each other, for any limits. The byte layout is the documented
  one, offset by offset (`KnownAnswers`).
- **Checksums** (`Sha256Portable` against `Fips180`, `Crc32`). The block-buffered SHA-256 is FIPS 180-4
  for every split of the message, and its constants are the root fractions the standard defines; the
  branch-free CRC is that of section 8 of RFC 1952, and no two messages of one length that differ only
  inside four neighbouring bytes share it. Both have their published answers: the digest of "abc"
  (`Fips180Example`) and the check value of "123456789" (`KnownAnswers`).
- **Executor** (`Executor`, `ExecutionTrace`, `ExecutionLaws`). Under an environment that may answer
  anything, the acting calls follow the perfect run up to some point, then come one last release and
  one terminal report; success is exactly the perfect run, whose waits add up to the header's duration,
  and comes exactly when nothing disturbed the run.
- **Around it** (`CrashSafety`, `ExecutionSafety`, `TickWait`, `Battery`, `HidRuntime`, `StateMachine`).
  The crash marker covers every run over all interleavings and power losses, the report of a cut run is
  lost under exactly one condition, the safety release has its history and its bounded retries, a
  wait sleeps its ticks in short slices, each begun with the flags clear, the battery level depends on the
  first and last report of an activity only, calibration runs release between keys and take exactly their
  time, and the coarse state machine enters a run only through its own mark and start.

How the modules hang together: `Bytes`, `Crc32`, `Fips180`, `RootConstants` and `Sha256Portable` are
arithmetic and hashing; `Schedule` and `ScheduleCodec` say what a file means, `Storage` is the flash and
the digest provider, `Verifier` the streaming checks; `ChunkMap` is the upload as a map from slots to
chunks and `Upload` the object that refines it; `ExecutionTrace` and `ExecutionLaws` speak about traces,
`Executor` produces them against the link of `HidLink`, whose safety machine is that of
`ExecutionSafety` and whose waits are those of `TickWait`. `JobRuns` says what one run leaves behind,
`Requests` how each request moves the board, and `Device` is the board that does so. `HidRuntime` runs on
the same link. `CrashSafety` is a protocol of its own, to which `BoardSteps` refines the requests; `Battery`
and `StateMachine` stand alone. `KnownAnswers` and `Fips180Example` fix what codec, checksum and hash share with
their references.

Storage and digest faults are counted: a call may fail at any moment, and every contract says what
follows when the counter did not move and what follows when it did. Environment answers (the clock,
whether the link takes a report, flash faults, task creation, marker writes) and the events on the link
are arbitrary; polls and waits are answered by the flags those events leave behind. The digest
provider is any provider that computes the hash of FIPS 180-4; the portable one is proved to be such.

Where the code and the protocol document differ, or the code keeps less than its documents suggest, the
code is followed and the exact condition is proved:

- The minor version byte (offset 9) is required to be 0 by the document and is not looked at by the code,
  so the model accepts every minor version (`components/typx_protocol/src/typx_protocol.c:254-269`).
- The document's table of transitions lacks COUNTDOWN to READY (a start taken back,
  `components/typx_wifi_upload/src/typx_wifi_upload.c:316-324`) and STOPPING to COMPLETED (`:388-400`).
- The stop flag is cleared at `targets/esp32_cam/main/typx_ble_hid.c:727`, after the job's status became
  COUNTDOWN, so a stop accepted before that line is lost (`StopRace.StopCanBeLost`), as is one accepted
  after the run has given the link back (`Device.Board.Conclude`); a stop counts exactly if no run's begin
  or end on the link follows it (`HidLink.StopHoldsExactly`, `StopRace.StartFlagsDecide`,
  `JobRuns.StandingStopHalts`).
- A disconnect clears `running` (`components/typx_hid_runtime/src/typx_hid_runtime.c:71-74`), so another
  run can take the link, and lower the stop flag, while the first has not noticed. The model lets it;
  `HidLink.OthersNeedLoss` says that nothing else lets it.
- The report of an interrupted run can be lost: the boot clears the marker long before the upload is told
  (`components/typx_execution_safety/src/typx_execution_safety.c:22`,
  `targets/esp32_cam/main/typx_wifi_service.c:976-980`), and it erases all settings, the marker with them,
  when their storage has no free page or another version (`targets/esp32_cam/main/typx_ble_hid.c:457-461`).
  `CrashSafety.ReportLostExactly` says when: if and only if, at some moment since the run was cut off, a
  clear or an erase had taken effect and no boot held the finding in memory. That is after an erase, after
  a clear that reported a failure, and after power loss or a failed later step of the boot once the marker
  was cleared. `CrashSafety.ReportCanBeLost` and `CrashSafety.ReportCanBeErased` are two such runs.
- The execution task clears the shared task handle after it has given the job up
  (`targets/esp32_cam/main/typx_wifi_service.c:610-614`), so it can wipe the handle of a task created in
  between: if and only if some ended task has yet to clear it (`CrashSafety.HandleLostExactly`,
  `CrashSafety.HandleCanBeLost`).
- The coarse state machine lets a run be entered after its upload was taken back
  (`StateMachine.EnteredUnverified`); `StateMachine.ExecutionIsEarned` says exactly when.

## Model

| member | source | states |
|---|---|---|
| `Device.Board.Serve` | targets/esp32_cam/main/typx_wifi_service.c:497-753 | Any requests, one after the other, while the link changes at every moment: each is answered, and moves the board, exactly as the relation of `Requests` says, and what that relation implies over whole sequences holds of the board |
| `Requests.EveryRunIsEarned` | targets/esp32_cam/main/typx_wifi_service.c:497-679 | In every sequence of requests from boot, each run was added by one start, earned by an earlier begin and finalization of its own |
| `Requests.RunIsEarned` | targets/esp32_cam/main/typx_wifi_service.c:619-679 | The runs change at one request only, a start with all its calls granted; the run typed the file that the chunk requests since the begin had put together, as announced, and no run came between its finalization and it |
| `Requests.HowLocked` | components/typx_wifi_upload/src/typx_wifi_upload.c:239-289 | A locked job was begun, received chunk by chunk and finalized, and its file is the chunks assembled |
| `Requests.HowReceived` | components/typx_wifi_upload/src/typx_wifi_upload.c:62-205 | A job being received holds exactly the run, on the chunk map, of the chunk requests for it since its begin that met no fault |
| `Requests.StillReceiving` | components/typx_wifi_upload/src/typx_wifi_upload.c:96-289 | A job goes on being received only by its own chunk requests and by requests that change nothing |
| `Requests.StillLocked` | components/typx_wifi_upload/src/typx_wifi_upload.c:239-363 | A locked job stays what it was when it was finalized |
| `Requests.StartKeepsOut` | targets/esp32_cam/main/typx_wifi_service.c:619-679 | A start either changes nothing or carries a ready job to one of the three ends of a run |
| `BoardSteps.ServedIsStepped` | targets/esp32_cam/main/typx_wifi_service.c:460-753 | Every sequence of requests is a run of the crash-marker protocol in which each step was enabled, with as many runs notified as the history holds, so what holds of every interleaving holds of the board |
| `BoardSteps.StartSteps` | targets/esp32_cam/main/typx_wifi_service.c:619-679 | A start is no step, the steps that take it back to where it began, or one notified run |
| `BoardSteps.OtherRequest` | targets/esp32_cam/main/typx_wifi_service.c:460-753 | Any other request is one step of the protocol or none |
| `Device.Board.Begin` | components/typx_wifi_upload/src/typx_wifi_upload.c:62-94 | The exact answer and effect of a begin on the whole board: job, chunks, file, faults and past runs |
| `Device.Board.PutChunk` | targets/esp32_cam/main/typx_wifi_service.c:497-543 | The exact answer and effect of a chunk request: the chunk-map outcome of its joined bytes, or nothing |
| `Device.Board.Finalize` | components/typx_wifi_upload/src/typx_wifi_upload.c:239-289 | The exact answer and effect of a finalization: which check failed first, and on success a locked job whose file is the chunks assembled |
| `Device.Board.Stop` | components/typx_wifi_upload/src/typx_wifi_upload.c:335-349 | The exact answer of a stop; an accepted one reaches the link's log, any other leaves the link alone |
| `Device.Board.Cancel` | components/typx_wifi_upload/src/typx_wifi_upload.c:351-363 | The exact answer and effect of a cancellation |
| `Device.Board.Start` | targets/esp32_cam/main/typx_wifi_service.c:619-679 | The exact answer of a start, judged by the safety machine's life so far and the upload: refused without effect, taken back to READY without effect, or carried through |
| `Device.Board.Launch` | targets/esp32_cam/main/typx_wifi_service.c:649-677 | The run takes place if and only if the marker was written, the task created and the answer sent; otherwise the board is as it was before the start, and the error sent is that of the first call that failed |
| `Device.Board.Prepare` | components/typx_wifi_upload/src/typx_wifi_upload.c:291-314 | The upload's verdict on the start, in the order of its checks |
| `Device.Board.Readiness` | targets/esp32_cam/main/typx_wifi_service.c:630-642 | The verdict is exactly that of the machine's state: disconnected, ready, failed for good until a retry, or pending |
| `Device.Board.ExecutionTask` | targets/esp32_cam/main/typx_wifi_service.c:595-617 | One execution adds exactly one run, faithful to what was announced and staged, and leaves the job unlocked with that run's status |
| `Device.Board.Conclude` | targets/esp32_cam/main/typx_wifi_service.c:607-613 | The result is the run's own unless the marker could not be cleared, and the job's status is that of the result, whatever is asked of the board between the run's end and its completion |
| `Device.Board.RunScheduleCountdownObserved` | targets/esp32_cam/main/typx_ble_hid.c:713-761 | Requests and stops may come before the link is taken; it is taken and given back; which releases, seconds and calls come before and after the executor on every way out, with their results and, from the link's log, their reasons; every tick slept is accounted for; the flags when the link is given back |
| `Device.Board.RunTaken` | targets/esp32_cam/main/typx_ble_hid.c:729-757 | Between taking and giving back: release, countdown, executor and the release after it; the stop flag is to be cleared unless the first release was refused |
| `Device.Board.TypeAndLift` | targets/esp32_cam/main/typx_ble_hid.c:749-755 | The upload is told that the countdown is over, the executor runs, and a release comes after it whose refusal turns success into a failure |
| `Device.Board.CountDown` | targets/esp32_cam/main/typx_ble_hid.c:735-748 | Every second lasted a thousand ticks, or the first broken one is followed by a release and ends the run |
| `Device.Board.BreakOff` | targets/esp32_cam/main/typx_ble_hid.c:737-747 | A broken second is a stop exactly if the stop flag was up, and a failed wait if the link alone was lost |
| `Device.Board.TypeSchedule` | targets/esp32_cam/main/typx_ble_hid.c:752 | The executor's record over the certified schedule is an outcome over the staged file's records |
| `Device.Board.CertifiedFile` | components/typx_wifi_upload/src/typx_wifi_upload.c:258-288 | In every locked job the staged bytes are accepted by the verifier, hash to the announced digest and back the verified schedule's token |
| `JobRuns.RunHasSafetyHistory` | targets/esp32_cam/main/typx_wifi_service.c:630-648 | Behind every run stands a connection, authenticated, with both reports confirmed released for it and nothing since to undo that |
| `JobRuns.TypedInFrame` | targets/esp32_cam/main/typx_ble_hid.c:713-761 | Whenever the executor ran, a confirmed release, the whole countdown and the message to the upload came before it and a release after it |
| `JobRuns.FrameEndsLifting` | targets/esp32_cam/main/typx_ble_hid.c:713-761 | A run that took the link ends with a release |
| `JobRuns.StandingStopHalts` | targets/esp32_cam/main/typx_ble_hid.c:230-242 | In every run, a stop or a lost link that no run's begin or end followed lets at most one more key-down or wait begin, and no further slice of sleep, a slice being ten ticks at most |
| `JobRuns.StopInRunHalts` | targets/esp32_cam/main/typx_ble_hid.c:727-757 | So does every stop asked for after the run cleared the flag, if no other run was on the link then and the link was not lost since |
| `JobRuns.DeclaredTime` | components/typx_executor/src/typx_executor.c:144-146 | A successful executor record over an accepted file asked to wait exactly the duration in its header |
| `JobRuns.RunTakesDeclaredTime` | targets/esp32_cam/main/typx_ble_hid.c:641-651 | Every run in the history that reports success slept, beside the eight seconds of its countdown, at least the duration in its file's header and less than three ticks a record more |
| `JobRuns.RunIsOrderly` | components/typx_executor/src/typx_executor.c:65-146 | In every run in the history a release was confirmed between two key-downs, progress counts up right after confirmed releases, and the one terminal report comes last |
| `JobRuns.RecordedKeys` | targets/esp32_cam/main/typx_ble_hid.c:713-761 | A framed and recorded run typed a beginning of its keys, all of them on success, and nothing outside its frame |
| `HidLink.StopHoldsExactly` | targets/esp32_cam/main/typx_ble_hid.c:720-760 | The stop flag is up if and only if a stop or a lost link was not followed by a run's begin or end |
| `HidLink.OthersNeedLoss` | components/typx_hid_runtime/src/typx_hid_runtime.c:65-75 | No other run can touch the flags of a run that is on unless the link is lost |
| `HidLink.NoClearsWithoutLoss` | targets/esp32_cam/main/typx_ble_hid.c:723-727 | After a begin with no other run about, nothing lowers the flag while the link holds |
| `HidLink.NapsBeforeStop` | targets/esp32_cam/main/typx_ble_hid.c:233-240 | Once a stop stands, no slice of sleep begins |
| `HidLink.Link.HostConnected` | targets/esp32_cam/main/typx_ble_hid.c:356-362 | A connection reaches the flags and the safety machine together |
| `HidLink.Link.HostDisconnected` | targets/esp32_cam/main/typx_ble_hid.c:363-372 | A lost link raises the stop flag, ends the run and reaches the safety machine |
| `HidLink.Link.BeginRun` | targets/esp32_cam/main/typx_ble_hid.c:726-727 | Taking the link clears the stop flag, and is on the log |
| `HidLink.Link.EndRun` | targets/esp32_cam/main/typx_ble_hid.c:756-757 | Giving it back, with or without clearing the flag |
| `HidLink.Link.Elapse` | targets/esp32_cam/main/typx_ble_hid.c:334-390 | Any events on the link leave the flags as the log says, and the safety machine in step |
| `HidLink.Link.Doze` | targets/esp32_cam/main/typx_ble_hid.c:238-239 | A slice of sleep is begun only with the flags clear, and is on the record with the moment it began |
| `StopRace.CalmRunCompletes` | components/typx_executor/src/typx_executor.c:50-146 | Every schedule has a run that completes |
| `StopRace.CompletedWasPolled` | components/typx_executor/src/typx_executor.c:69-95 | A run that completes was told at least once to go on |
| `StopRace.StartFlagsDecide` | targets/esp32_cam/main/typx_ble_hid.c:720-752 | Of all that happened before the first call, with nothing after, a completed run is possible if and only if no stop stands and the link is up |
| `StopRace.StopCanBeLost` | targets/esp32_cam/main/typx_ble_hid.c:726-727 | A stop accepted before the flag is cleared is lost: whatever the schedule, the run can go on to type all of it |
| `StopRace.SuccessMeansGranted` | components/typx_executor/src/typx_executor.c:28-48 | In a run that reports success every wait was granted |
| `Upload.WifiUpload.constructor` | components/typx_wifi_upload/src/typx_wifi_upload.c:53-60 | A new upload is idle and blank, with no chunk, and meets the invariant |
| `Upload.WifiUpload.Begin` | components/typx_wifi_upload/src/typx_wifi_upload.c:62-94 | The exact verdict on a begin; on success an empty receiving job with the announced size, digest and id; on a bad argument everything stays |
| `Upload.WifiUpload.ChunkBegin` | components/typx_wifi_upload/src/typx_wifi_upload.c:96-140 | The exact verdict on opening a chunk; no accepted chunk changes, whatever the verdict |
| `Upload.WifiUpload.OpenSlot` | components/typx_wifi_upload/src/typx_wifi_upload.c:117-139 | A conflicting checksum is refused without touching the flash; a fresh slot is erased; the session is ready for its first byte |
| `Upload.WifiUpload.OnlySlotTouched` | components/typx_wifi_upload/src/typx_wifi_upload.c:135-136 | Changing flash bytes of an empty slot leaves the invariant and every accepted chunk as they were |
| `Upload.ChunkSession.Write` | components/typx_wifi_upload/src/typx_wifi_upload.c:142-181 | A piece extends the session's data: written to an empty slot or compared with the staged chunk; the exact verdict, a session in conflict included; no accepted chunk changes |
| `Upload.ChunkSession.ComparePiece` | components/typx_wifi_upload/src/typx_wifi_upload.c:155-172 | The comparison in steps of the buffer succeeds exactly when the piece continues the staged bytes |
| `Upload.ChunkSession.WritePiece` | components/typx_wifi_upload/src/typx_wifi_upload.c:173-178 | After a write to erased flash the slot holds the data so far, and nothing else moved |
| `Upload.ChunkSession.Finish` | components/typx_wifi_upload/src/typx_wifi_upload.c:183-205 | The chunk is accepted whole exactly when it is complete, its checksum is right and the session met no conflict; then the chunk map gains it and nothing else |
| `Upload.WifiUpload.AcceptChunk` | components/typx_wifi_upload/src/typx_wifi_upload.c:199-203 | Entering length and checksum in the tables keeps the invariant, with the sum of lengths, and adds this one chunk |
| `Upload.WifiUpload.PutChunk` | targets/esp32_cam/main/typx_wifi_service.c:522-539 | One chunk request, for any split into pieces, is the chunk-map outcome when the flash works; a flash fault leaves the accepted chunks alone |
| `Upload.WifiUpload.Receive` | targets/esp32_cam/main/typx_wifi_service.c:525-539 | The receive loop's verdict depends only on the bytes joined, not on the split |
| `Upload.WifiUpload.AllSlotsPresent` | components/typx_wifi_upload/src/typx_wifi_upload.c:258-264 | Once the received bytes equal the announced size, every slot of the file is held |
| `Upload.WifiUpload.FullIsCounted` | components/typx_wifi_upload/src/typx_wifi_upload.c:258-261 | The received bytes equal the announced size if and only if no slot is missing |
| `Upload.WifiUpload.SomeSlotMissing` | components/typx_wifi_upload/src/typx_wifi_upload.c:262-264 | The loop over the slots finds one missing if and only if some chunk of the file is not held |
| `Upload.WifiUpload.StagedIsAssembled` | components/typx_wifi_upload/src/typx_wifi_upload.c:258-264 | Then the staged file is the accepted chunks put together |
| `Upload.WifiUpload.VerifyEncodedSha` | components/typx_wifi_upload/src/typx_wifi_upload.c:216-237 | Accepts exactly when the SHA-256 of the staged file is the announced one and nothing failed |
| `Upload.WifiUpload.Finalize` | components/typx_wifi_upload/src/typx_wifi_upload.c:239-289 | The exact verdict, the errors kept for the status request included; success exactly when the digest and the format are right and no call failed, and then the job is ready and certified; the flash is not touched |
| `Upload.WifiUpload.FinalizeWhole` | components/typx_wifi_upload/src/typx_wifi_upload.c:262-288 | With every byte received the verdict is that of the digest and, if that is right, of the format, with the format's own error kept |
| `Upload.WifiUpload.PrepareStart` | components/typx_wifi_upload/src/typx_wifi_upload.c:291-314 | The exact verdict on a start; success moves READY to COUNTDOWN and clears the stop flag |
| `Upload.WifiUpload.StartFailed` | components/typx_wifi_upload/src/typx_wifi_upload.c:316-324 | Only a countdown is taken back, to READY |
| `Upload.WifiUpload.MarkExecuting` | components/typx_wifi_upload/src/typx_wifi_upload.c:326-333 | Only a countdown becomes an execution |
| `Upload.WifiUpload.RequestStop` | components/typx_wifi_upload/src/typx_wifi_upload.c:335-349 | Accepted in a run or when already stopped; a run becomes STOPPING |
| `Upload.WifiUpload.Cancel` | components/typx_wifi_upload/src/typx_wifi_upload.c:351-363 | Only a ready job of the same id is dropped, with its chunks and its token |
| `Upload.WifiUpload.RecordProgress` | components/typx_wifi_upload/src/typx_wifi_upload.c:365-377 | Progress is taken exactly when executing, with the right total and in range |
| `Upload.WifiUpload.MarkInterruptedReset` | components/typx_wifi_upload/src/typx_wifi_upload.c:379-386 | The state an interrupted run is reported in |
| `Upload.WifiUpload.Complete` | components/typx_wifi_upload/src/typx_wifi_upload.c:388-400 | The terminal status of each result; the job is unlocked |
| `Upload.WifiUpload.OtherRequests` | targets/esp32_cam/main/typx_wifi_service.c:497-753 | Any requests but stops handled while a run is on leave staged bytes, tables, announcement, token and status as they were |
| `ChunkMap.OutcomeOfSession` | components/typx_wifi_upload/src/typx_wifi_upload.c:142-205 | What an opened session does, on its joined bytes, is the chunk-map outcome |
| `ChunkMap.OutcomeOfRefusal` | components/typx_wifi_upload/src/typx_wifi_upload.c:96-140 | A request refused at opening has the chunk-map outcome, for whatever bytes follow |
| `ChunkMap.SumCovered` | components/typx_wifi_upload/src/typx_wifi_upload.c:258-261 | Lengths in legal slots add up to the file size if and only if no slot of the file is empty |
| `ChunkMap.SumUpdate` | components/typx_wifi_upload/src/typx_wifi_upload.c:201-203 | Replacing one length moves the sum by the difference |
| `ChunkMap.ApplyMeaning` | components/typx_wifi_upload/src/typx_wifi_upload.c:96-205 | A request changes the map exactly when it is good and its slot is free, by adding its data |
| `ChunkMap.FirstGoodWins` | components/typx_wifi_upload/src/typx_wifi_upload.c:128-181 | After any run of requests each slot holds the data of the first good request for it and nothing else is held |
| `ChunkMap.RunIsUnion` | components/typx_wifi_upload/src/typx_wifi_upload.c:128-181 | If good requests for one slot agree, exactly their data is held, wherever they stand in the run |
| `ChunkMap.ArrivalOrderIrrelevant` | components/typx_wifi_upload/src/typx_wifi_upload.c:96-205 | Two runs with the same good requests, no two at odds, in any order and with any repeats or bad requests, hold the same chunks |
| `ChunkMap.DamagedChunkRejected` | components/typx_wifi_upload/src/typx_wifi_upload.c:192-197 | A chunk damaged inside a window of four bytes is never accepted |
| `ChunkRuns.ServeChunks` | targets/esp32_cam/main/typx_wifi_service.c:497-543 | Any sequence of chunk requests after a begin, with repeats, damage, foreign jobs and flash faults, holds exactly the run of the requests for this job that met no fault |
| `ChunkRuns.SameGoodRequestsSameFile` | components/typx_wifi_upload/src/typx_wifi_upload.c:96-205 | Two complete uploads of one size whose runs had the same good requests, no two at odds, hold the same file |
| `Storage.Flash.Write` | targets/esp32_cam/main/typx_wifi_service.c:254-261 | Writes can only clear bits, inside their range |
| `Storage.Flash.EraseRange` | targets/esp32_cam/main/typx_wifi_service.c:247-252 | Erasing sets exactly its range to ones |
| `Storage.Flash.Erase` | targets/esp32_cam/main/typx_wifi_service.c:241-245 | Erasing everything sets every cell to ones |
| `Storage.Flash.Read` | targets/esp32_cam/main/typx_wifi_service.c:263-270 | Reads give the cells of their range |
| `Storage.ProgrammedErased` | components/typx_wifi_upload/src/typx_wifi_upload.c:135-136 | On an erased cell a write stores its byte |
| `Storage.DigestProvider.Begin` | components/typx_protocol/src/typx_sha256_portable.c:112-122 | A provider starts a message, or reports a failure |
| `Storage.DigestProvider.Update` | components/typx_protocol/src/typx_sha256_portable.c:124-147 | A provider absorbs bytes, or reports a failure |
| `Storage.DigestProvider.Finish` | components/typx_protocol/src/typx_sha256_portable.c:149-176 | A provider gives the hash of what it absorbed, or reports a failure |
| `Verifier.ReadExact` | components/typx_protocol/src/typx_protocol.c:31-44 | Reads exactly inside the file, for all offsets and lengths, and no more than the buffer holds |
| `Verifier.ReadRecordUnverified` | components/typx_protocol/src/typx_protocol.c:109-121 | The record decoded from its place in the file, or the error of its bytes |
| `Verifier.VerifyPayloadSha256` | components/typx_protocol/src/typx_protocol.c:123-150 | The streamed digest is accepted exactly when the hash of the payload is the header's |
| `Verifier.ValidateRecords` | components/typx_protocol/src/typx_protocol.c:152-206 | The loop's verdict is that of the declarative rule over all records; the overflow branch cannot be taken |
| `Verifier.JudgeRecord` | components/typx_protocol/src/typx_protocol.c:175-193 | The place of a record among its neighbours is judged as the rule says |
| `Verifier.CheckHeaderForm` | components/typx_protocol/src/typx_protocol.c:254-269 | Accepts exactly the bytes the encoder writes for the header they decode to, of major version 1 and format 1 |
| `Verifier.CheckHeaderSizes` | components/typx_protocol/src/typx_protocol.c:282-309 | The size checks, in their order, and what they imply about counts and lengths |
| `Verifier.DurationBound` | components/typx_protocol/src/typx_protocol.c:194-200 | Records whose bytes fit 32 bits number fewer than 2^27 and last less than 2^61 microseconds |
| `Verifier.DurationPositive` | components/typx_protocol/src/typx_protocol.c:202-203 | A schedule ending in a held key has a positive duration |
| `Verifier.Verify` | components/typx_protocol/src/typx_protocol.c:224-324 | OK exactly when nothing failed and the file conforms to the declarative predicate; otherwise the first error of the code's order; OK exactly when the token is granted |
| `Verifier.ReadRecord` | components/typx_protocol/src/typx_protocol.c:332-347 | Only a token gives a record, the one at that place in the file |
| `Bytes.U16RoundTrip` | components/typx_protocol/src/typx_protocol.c:15-17 | Reading and writing two bytes undo each other |
| `Bytes.U32RoundTrip` | components/typx_protocol/src/typx_protocol.c:19-24 | Reading and writing four bytes undo each other |
| `Bytes.U64RoundTrip` | components/typx_protocol/src/typx_protocol.c:26-29 | Reading and writing eight bytes undo each other |
| `Bytes.LittleEndian16` | components/typx_protocol/src/typx_protocol.c:15-17 | The byte of lower weight comes first, in reading and in writing |
| `Bytes.LittleEndian32` | components/typx_protocol/src/typx_protocol.c:19-24 | The four bytes of a field have the weights 1, 2^8, 2^16, 2^24 in this order |
| `Bytes.LittleEndian64` | components/typx_protocol/src/typx_protocol.c:26-29 | The eight bytes of a field have the weights 1 to 2^56 in this order |
| `KnownAnswers.HeaderTable` | docs/protocol/ESP32_CAM_PROTOCOL_V1.md:29-47 | The form checks accept a header if and only if the bytes at the documented offsets hold the magic text, the versions, the lengths, the flags and the zeros the document's table asks for |
| `KnownAnswers.HeaderFieldTable` | docs/protocol/ESP32_CAM_PROTOCOL_V1.md:31-47 | The fields of a header are the little-endian numbers and the bytes at the documented offsets |
| `KnownAnswers.RecordTable` | docs/protocol/ESP32_CAM_PROTOCOL_V1.md:59-83 | A record is taken if and only if its bytes hold what the document's table says: waits, hold, modifier, usage, one of three flag values, the two ones and the zeros |
| `KnownAnswers.RecordFieldTable` | docs/protocol/ESP32_CAM_PROTOCOL_V1.md:61-72 | The fields of a record are the little-endian numbers and bytes at the documented offsets |
| `KnownAnswers.FlagValues` | docs/protocol/ESP32_CAM_PROTOCOL_V1.md:74-77 | The flag rules leave three values: source, technical, and technical with cleanup, all with the release |
| `KnownAnswers.Usages` | docs/protocol/ESP32_CAM_PROTOCOL_V1.md:80-83 | The usages taken are those on the keys the document names |
| `KnownAnswers.LargestFile` | components/typx_protocol/include/typx_protocol.h:17-18 | The largest file is 512 KiB, full of records and full of chunks |
| `Schedule.DecodeEncodedRecord` | docs/protocol/ESP32_CAM_PROTOCOL_V1.md:57-78 | Encoding a record and decoding it gives it back |
| `Schedule.EncodeDecodedRecord` | components/typx_protocol/src/typx_protocol.c:63-107 | Decoding framed bytes and encoding gives the same bytes |
| `Schedule.RecordFormMeaning` | components/typx_protocol/src/typx_protocol.c:63-107 | The decoder accepts exactly framed bytes of a valid record |
| `Schedule.FlagRule` | components/typx_protocol/src/typx_protocol.c:96-105 | The flag tests mean: known bits, mandatory release, source or technical but not both, cleanup only technical |
| `ScheduleCodec.DecodeEncodedHeader` | docs/protocol/ESP32_CAM_PROTOCOL_V1.md:27-47 | Encoding a header and decoding it gives it back, and the form is accepted |
| `ScheduleCodec.EncodeDecodedHeader` | components/typx_protocol/src/typx_protocol.c:254-280 | Decoding a well-formed header and encoding gives the same bytes |
| `ScheduleCodec.HeaderFormMeaning` | components/typx_protocol/src/typx_protocol.c:254-269 | The order of form tests amounts to being an encoded header |
| `ScheduleCodec.DecodeEncodedRecords` | docs/protocol/ESP32_CAM_PROTOCOL_V1.md:57-78 | The records read from an encoded file are those encoded |
| `ScheduleCodec.EncodeDecodedRecords` | components/typx_protocol/src/typx_protocol.c:152-174 | The records read from a framed file encode to its payload |
| `ScheduleCodec.RecordsErrorMeaning` | components/typx_protocol/src/typx_protocol.c:162-205 | The fold over the records accepts exactly when each record fits its place and the durations add up to the header's |
| `ScheduleCodec.RecordErrorMeaning` | components/typx_protocol/src/typx_protocol.c:163-193 | When one record fits its place: framing, values, monotone source index, cleanup exactly in the last three with the three fixed keys |
| `ScheduleCodec.RecordsFreeIsSound` | components/typx_protocol/src/typx_protocol.c:162-193 | Records without error are valid, ordered and end with the cleanup |
| `ScheduleCodec.RecordsFreeIsComplete` | components/typx_protocol/src/typx_protocol.c:162-193 | Valid, ordered records ending with the cleanup meet no error |
| `ScheduleCodec.DecisionIsConformance` | components/typx_protocol/src/typx_protocol.c:224-324 | The code's order of checks accepts exactly the conforming files, for any limits |
| `ScheduleCodec.AcceptedIsEncoding` | components/typx_protocol/src/typx_protocol.c:224-324 | Every accepted file is the encoding of a valid schedule, the one decoded from it |
| `ScheduleCodec.EncodingIsAccepted` | docs/protocol/ESP32_CAM_PROTOCOL_V1.md:27-78 | Every encoding of a valid schedule is accepted and decodes to it |
| `ScheduleCodec.EncodingIsInjective` | docs/protocol/ESP32_CAM_PROTOCOL_V1.md:27-78 | Two valid schedules with one encoding are the same |
| `ScheduleCodec.AcceptedRecord` | components/typx_protocol/src/typx_protocol.c:332-347 | In an accepted file every record decodes without error |
| `Crc32.BranchFreeBit` | components/typx_wifi_upload/src/typx_wifi_upload.c:25-27 | The branch-free step is the reflected-polynomial step of RFC 1952 |
| `Crc32.BitwiseByte` | components/typx_wifi_upload/src/typx_wifi_upload.c:23-28 | Eight such steps are one table step of RFC 1952 |
| `Crc32.UpdateRegister` | components/typx_wifi_upload/src/typx_wifi_upload.c:19-30 | The loops compute the register of RFC 1952 |
| `Crc32.Checksum` | components/typx_wifi_upload/src/typx_wifi_upload.c:32-37 | The one-shot checksum is that of section 8 of RFC 1952 |
| `KnownAnswers.Generator` | components/typx_wifi_upload/src/typx_wifi_upload.c:26 | The polynomial is the reflected generator with the exponents 26, 23, 22, 16, 12, 11, 10, 8, 7, 5, 4, 2, 1 and 0 |
| `KnownAnswers.CheckValue` | components/typx_wifi_upload/src/typx_wifi_upload.c:32-37 | The checksum of "123456789" is 0xcbf43926, the check value of CRC-32 |
| `Crc32.UpdateConcat` | components/typx_wifi_upload/src/typx_wifi_upload.c:153-154 | Updating piece by piece is updating with the whole |
| `Crc32.UpdateInjective` | components/typx_wifi_upload/src/typx_wifi_upload.c:19-30 | Different registers stay different over the same bytes |
| `Crc32.BurstDetected` | components/typx_wifi_upload/src/typx_wifi_upload.c:192-197 | Messages of one length that differ only within four neighbouring bytes never share a checksum, whatever surrounds them; one differing byte is the smallest case |
| `Fips180.HashBlocksPrefix` | components/typx_protocol/src/typx_sha256_portable.c:124-147 | The hash of whole blocks depends only on those blocks |
| `Fips180.PadTail` | components/typx_protocol/src/typx_sha256_portable.c:149-168 | What the padding of section 5.1.1 of FIPS 180-4 puts after the last whole block, in both cases |
| `Fips180.PadOneBlock` | components/typx_protocol/src/typx_sha256_portable.c:149-176 | When the tail leaves room for the length, the hash is one more compression |
| `Fips180.PadTwoBlocks` | components/typx_protocol/src/typx_sha256_portable.c:156-161 | When it does not, it is two more |
| `RootConstants.RoundConstants` | components/typx_protocol/src/typx_sha256_portable.c:9-25 | Each round constant is the first 32 fractional bits of the cube root of its prime |
| `RootConstants.InitialWords` | components/typx_protocol/src/typx_sha256_portable.c:5-7 | Each initial word is the first 32 fractional bits of the square root of its prime |
| `Fips180Example.DigestOfAbc` | components/typx_protocol/src/typx_sha256_portable.c:20-176 | The digest of "abc" is that of the standard's worked example, through every word and round of it |
| `Sha256Portable.Context.Begin` | components/typx_protocol/src/typx_sha256_portable.c:112-122 | The context stands for the empty message |
| `Sha256Portable.Context.ExpandBlock` | components/typx_protocol/src/typx_sha256_portable.c:59-71 | The 64 words are the message schedule of the block |
| `Sha256Portable.Context.ProcessBlock` | components/typx_protocol/src/typx_sha256_portable.c:45-110 | The state becomes the compression of the block into it |
| `Sha256Portable.RoundStep` | components/typx_protocol/src/typx_sha256_portable.c:82-100 | The eight assignments are one round |
| `Sha256Portable.SumOrder` | components/typx_protocol/src/typx_sha256_portable.c:64-71 | The order of the modular sums does not matter |
| `Sha256Portable.Context.Update` | components/typx_protocol/src/typx_sha256_portable.c:124-147 | The context stands for the message with the piece appended, or refuses on counter overflow and stands still |
| `Sha256Portable.Context.Finish` | components/typx_protocol/src/typx_sha256_portable.c:149-176 | The digest is the FIPS 180-4 hash of the message, for every length the counter can hold |
| `Sha256Portable.HashPieces` | components/typx_protocol/src/typx_sha256_portable.c:112-176 | Any split of a message hashes to the one-shot hash of the whole |
| `Executor.Finish` | components/typx_executor/src/typx_executor.c:14-26 | One release, then the terminal report, with a refused release overriding status and error |
| `Executor.WaitChecked` | components/typx_executor/src/typx_executor.c:28-48 | A nonzero wait polls, reads the clock, waits, and reads again; how each answer ends it |
| `Executor.RunRecord` | components/typx_executor/src/typx_executor.c:65-143 | One turn either extends the perfect run by one record or ends the run with its outcome |
| `Executor.Run` | components/typx_executor/src/typx_executor.c:50-146 | Every run, under any answers, leaves an outcome trace over the schedule's records; with a verified schedule and a readable flash it succeeds if and only if no poll answered stop, nothing was refused and no wait turned the clock back |
| `Executor.ExecutorIo.StopHandler` | targets/esp32_cam/main/typx_wifi_service.c:718-736 | An accepted stop request changes the upload and reaches the link's log, and touches nothing else |
| `Executor.ExecutorIo.OtherTasks` | targets/esp32_cam/main/typx_wifi_service.c:497-753 | Between two calls of a run any requests, stops and link events leave the job's bytes alone and the log in step with the trace |
| `Executor.ExecutorIo.Lift` | targets/esp32_cam/main/typx_ble_hid.c:729-741 | A release outside the executor's record is possible on a live link only, and is noted with its answer |
| `Executor.ExecutorIo.Second` | targets/esp32_cam/main/typx_ble_hid.c:737 | A whole second of the countdown is a thousand ticks slept; a broken one shows a stop |
| `Executor.ExecutorIo.CountdownComplete` | targets/esp32_cam/main/typx_wifi_service.c:578-583 | The upload is told that the countdown is over, and moves on unless a stop came first |
| `Executor.ExecutorIo.ReportProgress` | targets/esp32_cam/main/typx_wifi_service.c:585-593 | A report reaches the upload, which takes it exactly when executing, with the right total and in range |
| `Executor.ExecutorIo.StopRequested` | targets/esp32_cam/main/typx_ble_hid.c:664-667 | A poll is answered by the flags as the log has left them |
| `Executor.ExecutorIo.WaitUs` | targets/esp32_cam/main/typx_ble_hid.c:641-651 | A wait is granted if and only if the flags are clear at its end; what is slept in it goes on the account: all of its microseconds, rounded up to ticks, when granted, and no more than that when not |
| `ExecutionLaws.RunKeepsOrder` | components/typx_executor/src/typx_executor.c:65-143 | Keys pressed are a beginning of the schedule's; no key goes down while one is held; progress counts up; no more waiting than the total |
| `ExecutionLaws.SuccessIsComplete` | components/typx_executor/src/typx_executor.c:144-146 | Success pressed every key, reported every record and asked to wait exactly the total duration the verifier checked |
| `ExecutionLaws.ReleasedBetween` | components/typx_executor/src/typx_executor.c:96-121 | Between any two key-downs there is a confirmed release |
| `ExecutionLaws.ProgressCounts` | components/typx_executor/src/typx_executor.c:113-126 | Report number k says k, right after a confirmed release |
| `ExecutionLaws.PolledBetween` | components/typx_executor/src/typx_executor.c:92-103 | Between any two key-downs or waits there is a poll that said go on |
| `ExecutionLaws.StopIsPrompt` | components/typx_executor/src/typx_executor.c:69-143 | Once every poll answers stop, at most one key-down or wait is still begun |
| `ExecutionLaws.StopIsHeeded` | components/typx_executor/src/typx_executor.c:69-143 | A standing stop, from the moment it was raised, lets at most one key-down or wait begin |
| `ExecutionLaws.StopAfterBeginIsHeeded` | components/typx_executor/src/typx_executor.c:69-143 | So does any stop after a begin with the link to itself, as long as the link is not lost |
| `ExecutionLaws.OneTerminalReport` | components/typx_executor/src/typx_executor.c:14-26 | There is exactly one terminal report, and it is the last event |
| `TickWait.SliceIsPositive` | targets/esp32_cam/main/typx_ble_hid.c:230-242 | The slice is nonzero exactly when the tick rate is at least 100 |
| `TickWait.SlicedMeaning` | targets/esp32_cam/main/typx_ble_hid.c:230-242 | The slices add up to the wait, each of one to ten ticks |
| `TickWait.SchedulerWaitTicks` | targets/esp32_cam/main/typx_ble_hid.c:230-242 | What is slept are the first slices of the wait, each begun with the flags clear, and all of them if and only if it is granted; it is granted if and only if the flags are clear at its end |
| `TickWait.ExecutorWaitUs` | targets/esp32_cam/main/typx_ble_hid.c:641-651 | A wait takes exactly its microseconds rounded up to ticks, in slices of one to ten |
| `TickWait.WaitMs` | targets/esp32_cam/main/typx_ble_hid.c:244-252 | The pauses last exactly their milliseconds in ticks |
| `TickWait.RoundingBounds` | targets/esp32_cam/main/typx_ble_hid.c:641-651 | Rounding up costs less than a tick per wait |
| `TickWait.SleptIsTicks` | targets/esp32_cam/main/typx_ble_hid.c:641-651 | Where every wait was granted, the ticks slept are the ticks the record's waits ask for |
| `TickWait.CompletedRunTime` | targets/esp32_cam/main/typx_ble_hid.c:641-651 | At 1000 ticks a second a completed run of n records waits at least its declared duration and less than 3n ticks beyond it |
| `CrashSafety.NextKeepsInv` | targets/esp32_cam/main/typx_wifi_service.c:595-679 | Every step, power loss, a failing marker write, a failing boot and a boot that erases the settings included, keeps the protocol invariant |
| `CrashSafety.RunKeepsInv` | targets/esp32_cam/main/typx_wifi_service.c:595-679 | The invariant holds after every run of steps |
| `CrashSafety.MarkerCoversRun` | targets/esp32_cam/main/typx_wifi_service.c:595-617 | A notified run that has not reached its terminal step has the marker set |
| `CrashSafety.RunExcludesRequests` | targets/esp32_cam/main/typx_wifi_service.c:619-679 | While a task exists, no begin, finalize, cancel or second start gets through |
| `CrashSafety.InterruptedRunIsReported` | targets/esp32_cam/main/typx_wifi_service.c:976-980 | Power lost during a run leads to INTERRUPTED_RESET on the next boot in which nothing goes wrong |
| `CrashSafety.OwedReportIsMade` | targets/esp32_cam/main/typx_wifi_service.c:976-980 | A boot that comes through reports a debt that is owed and reports nothing of one that is lost |
| `CrashSafety.LostByReset` | targets/esp32_cam/main/typx_ble_hid.c:455-466 | The steps that lose the debt are exactly the resets while the marker is cleared and the upload not told, and the erase of the settings before the marker is read |
| `CrashSafety.ReportLostExactly` | targets/esp32_cam/main/typx_ble_hid.c:455-466 | As long as no boot has come through since a run was cut off, the marker stands until a boot's clear or erase takes effect, and the report is lost if and only if at some moment since one had taken effect and no boot held the finding in memory |
| `CrashSafety.ReportCanBeLost` | components/typx_execution_safety/src/typx_execution_safety.c:19-24 | A run of steps in which the report is lost though no write failed |
| `CrashSafety.ReportCanBeErased` | targets/esp32_cam/main/typx_ble_hid.c:457-461 | A run of steps in which the boot erases the settings, and the report with them |
| `CrashSafety.NoStartWithoutUpload` | targets/esp32_cam/main/typx_wifi_service.c:619-679 | A start is possible only after a begin and then a finalization succeeded since the last boot |
| `CrashSafety.HandleIsLive` | targets/esp32_cam/main/typx_wifi_service.c:663-677 | A created task has a live handle to notify if no earlier task was still finishing |
| `CrashSafety.HandleLostExactly` | targets/esp32_cam/main/typx_wifi_service.c:610-672 | A task being created can lose its handle before it is notified if and only if an ended task has yet to clear the shared handle |
| `CrashSafety.HandleCanBeLost` | targets/esp32_cam/main/typx_wifi_service.c:610-614 | And the board can get there |
| `ExecutionSafety.Safety.OnConnected` | components/typx_execution_safety/src/typx_execution_safety.c:44-57 | A connection starts over under a new generation |
| `ExecutionSafety.Safety.OnDisconnected` | components/typx_execution_safety/src/typx_execution_safety.c:59-71 | A disconnection forgets authentication and moves the generation |
| `ExecutionSafety.Safety.OnAuthenticated` | components/typx_execution_safety/src/typx_execution_safety.c:73-84 | The outcome of pairing, ignored when disconnected |
| `ExecutionSafety.Safety.TryBeginRelease` | components/typx_execution_safety/src/typx_execution_safety.c:86-98 | An attempt begins exactly when allowed for this generation |
| `ExecutionSafety.Safety.TryCompleteRelease` | components/typx_execution_safety/src/typx_execution_safety.c:100-123 | An attempt is concluded exactly when it is the running one, with its error |
| `ExecutionSafety.Safety.RequestRetry` | components/typx_execution_safety/src/typx_execution_safety.c:125-136 | A retry resets the attempts except when confirmed or releasing |
| `ExecutionSafety.Safety.Interfere` | components/typx_execution_safety/src/typx_execution_safety.c:44-136 | Whatever other tasks do, the attempts still to come grow only by six for each event that starts them over |
| `ExecutionSafety.Safety.ReleaseTask` | targets/esp32_cam/main/typx_ble_hid.c:148-200 | With other tasks at work at every turn the loop ends refused, confirmed or given up, after at most what is left of six attempts and six more for each time the others start them over; undisturbed, confirmed or with all six spent |
| `ExecutionSafety.RunIsSound` | components/typx_execution_safety/src/typx_execution_safety.c:44-136 | What every run of events from boot keeps of state, error, attempts and authentication |
| `ExecutionSafety.ReadyIsConfirmed` | components/typx_execution_safety/src/typx_execution_safety.c:138-156 | Ready exactly when the state is CONFIRMED |
| `ExecutionSafety.ReadyHasHistory` | components/typx_execution_safety/src/typx_execution_safety.c:44-156 | Ready exactly when the latest link event was a connection, followed by a successful authentication, a begun and a completely successful release of that generation, and no later authentication |
| `ExecutionSafety.StaysReleasing` | components/typx_execution_safety/src/typx_execution_safety.c:86-123 | A begun release stays the running one until a link event, an authentication or its own completion |
| `ExecutionSafety.GenerationCounts` | components/typx_execution_safety/src/typx_execution_safety.c:44-71 | The generation is the number of link events, round a cycle of 2^32 - 1 that leaves out zero |
| `ExecutionSafety.StaleGeneration` | components/typx_execution_safety/src/typx_execution_safety.c:86-123 | An old generation comes back exactly after a multiple of 2^32 - 1 link events; until then it is refused without any change |
| `ExecutionSafety.RetriesAreBounded` | components/typx_execution_safety/src/typx_execution_safety.c:86-136 | Attempts never exceed six, and begun releases never exceed six times the events that reset them |
| `ExecutionSafety.AttemptsAccounted` | components/typx_execution_safety/src/typx_execution_safety.c:86-136 | The exact account behind that bound |
| `HidRuntime.Runtime.Look` | components/typx_hid_runtime/src/typx_hid_runtime.c:16-20 | A look at the flags says disconnected, stopped or go on, and is on the record |
| `HidRuntime.Runtime.WaitMs` | components/typx_hid_runtime/src/typx_hid_runtime.c:16-24 | A pause follows a look that said to go on; in it as many ticks are slept as milliseconds asked for, and in one cut short no more |
| `HidRuntime.Runtime.KeyDown` | components/typx_hid_runtime/src/typx_hid_runtime.c:91-103 | A key is handed to the link if and only if it is connected |
| `Battery.IdentityState.RecordSuccessfulReport` | components/typx_ble_identity/src/typx_ble_identity.c:201-233 | The closed form of one report: whole intervals drop the level round its cycle, the rest stays on the clock |
| `Battery.IdentityState.CountIntervals` | components/typx_ble_identity/src/typx_ble_identity.c:220-231 | The subtracting loop is division with remainder, and ends |
| `Battery.IdentityState.RecordActivity` | components/typx_ble_identity/src/typx_ble_identity.c:201-233 | Over one activity the level and the clock depend only on the first and the last report, not on the number of reports |
| `Battery.IdentityState.ResetBattery` | components/typx_ble_identity/src/typx_ble_identity.c:239-249 | Back to the top, reporting whether that changed anything |
| `Battery.IdentityState.EndActivity` | components/typx_ble_identity/src/typx_ble_identity.c:235-237 | The next report opens a new activity |
| `Battery.DroppedInRange` | components/typx_ble_identity/src/typx_ble_identity.c:222-229 | The level stays between minimum and maximum |
| `Battery.DropOnce` | components/typx_ble_identity/src/typx_ble_identity.c:222-229 | One step of the loop is one step round the cycle |
| `Battery.DropsCompose` | components/typx_ble_identity/src/typx_ble_identity.c:222-229 | Drops add up |
| `Battery.Accrue` | components/typx_ble_identity/src/typx_ble_identity.c:201-233 | Counting in two goes is counting at once |
| `Battery.ValidMeans` | components/typx_ble_identity/src/typx_ble_identity.c:71-82 | A configuration is valid exactly with a proper range of percents, the current level inside it, and one minute to one day a percent |
| `HidRuntime.Runtime.ReleaseAll` | components/typx_hid_runtime/src/typx_hid_runtime.c:105-120 | Exactly what is sent: all-zero reports until one is taken, at most three; nothing if and only if the link is down |
| `HidRuntime.Runtime.SendCharacter` | components/typx_hid_runtime/src/typx_hid_runtime.c:122-149 | On success the key, its hold, an all-zero report and the settling pause were done in this order; a key goes down only when none is and right after a look that said to go on; whatever goes wrong, a further release |
| `HidRuntime.Runtime.BeginTest` | components/typx_hid_runtime/src/typx_hid_runtime.c:151-182 | The exact refusal of a test; otherwise the link is taken, a first release and five seconds follow, or an exit that ends releasing, with its reason |
| `HidRuntime.Runtime.FinishTest` | components/typx_hid_runtime/src/typx_hid_runtime.c:184-193 | A last release, all-zero if still connected; an earlier error is kept |
| `HidRuntime.Runtime.TypeText` | components/typx_hid_runtime/src/typx_hid_runtime.c:205-221 | Whatever the link and other tasks do, keys tried are a beginning of the text's, no two without a release taken between; the result is that of the look that stopped the run, and bad only if something went wrong |
| `HidRuntime.Runtime.RunTest` | components/typx_hid_runtime/src/typx_hid_runtime.c:195-222 | The same for the calibration run; the arguments are refused exactly when out of range; success did exactly the script, with 2n + 2 reports taken and 5000 + n(hold + 60) ticks slept |
| `HidRuntime.Runtime.RunShiftTest` | components/typx_hid_runtime/src/typx_hid_runtime.c:224-248 | The same for the shift run, with 14 reports |
| `HidRuntime.ReleasedBetween` | components/typx_hid_runtime/src/typx_hid_runtime.c:122-149 | Between two key reports an all-zero report was taken |
| `HidRuntime.LiftedMeans` | components/typx_hid_runtime/src/typx_hid_runtime.c:122-149 | What it means that no key is down |
| `HidRuntime.ScriptReports` | components/typx_hid_runtime/src/typx_hid_runtime.c:195-222 | A script of n keys takes 2n + 2 reports |
| `HidRuntime.ScriptPauses` | components/typx_hid_runtime/src/typx_hid_runtime.c:195-222 | The pauses of a script of n keys |
| `HidRuntime.PatternKey` | components/typx_hid_runtime/src/typx_hid_runtime.c:26-50 | The pattern is typed with the usages of the letters in order and of the digits, 0 first |
| `HidRuntime.ShiftKeys` | components/typx_hid_runtime/src/typx_hid_runtime.c:26-50 | The shift sequence is typed with its six documented keys |
| `StateMachine.BoardState.MoveTo` | components/typx_executor/src/typx_state_machine.c:76-90 | The verdict and the new state of a transition request |
| `StateMachine.BoardState.MarkJobReady` | components/typx_executor/src/typx_state_machine.c:92-107 | The verdict and the new state of a mark |
| `StateMachine.BoardState.StartJob` | components/typx_executor/src/typx_state_machine.c:109-121 | The verdict and the new state of a start |
| `StateMachine.BoardState.FinishJob` | components/typx_executor/src/typx_state_machine.c:123-140 | The verdict and the new state of a finish, for either answer of the release |
| `StateMachine.BoardState.SetComplete` | components/typx_executor/src/typx_state_machine.c:66-74 | An incomplete upload is not verified |
| `StateMachine.BoardState.SetBluetoothConnected` | components/typx_executor/src/typx_state_machine.c:59-64 | Only the connection changes |
| `StateMachine.EnteredFrom` | components/typx_executor/src/typx_state_machine.c:5-47 | Which states each state can be entered from |
| `StateMachine.VerifiedIsComplete` | components/typx_executor/src/typx_state_machine.c:66-107 | In every run from boot a verified job is a complete upload |
| `StateMachine.TerminalNeedsRelease` | components/typx_executor/src/typx_state_machine.c:123-140 | COMPLETED and ABORTED are entered only by a finish whose release succeeded |
| `StateMachine.ReadyHasMark` | components/typx_executor/src/typx_state_machine.c:92-107 | A ready state goes back to a successful mark with no execution entered since; its job is verified if and only if the upload was not taken back since |
| `StateMachine.CountdownHasStart` | components/typx_executor/src/typx_state_machine.c:109-121 | A countdown goes back to a mark and then a connected start with no execution entered since the mark, and the same about its job |
| `StateMachine.ExecutionIsEarned` | components/typx_executor/src/typx_state_machine.c:5-140 | Every entry to EXECUTING has its own earlier mark and connected start, shared with no other entry, and its job is still verified if and only if the upload was not taken back since the mark |
| `StateMachine.EnteredUnverified` | components/typx_executor/src/typx_state_machine.c:66-74 | A run of calls that enters EXECUTING with an unverified job |

## Left out

- HTTP and JSON parsing, mDNS, Wi-Fi mode switching, GAP and GATT setup, NVS and FreeRTOS calls: library input and output; only the order of the state changes they surround is kept.
- Branches for null pointers and missing callbacks: the model's types have no null.
- `typx_sha256_mbedtls.c`: wraps a library that is not part of this model; any provider that computes the hash may take its place.
- Console parsing, code-name tables, discovery, station mode, local and embedded schedules, the identity pages: single-branch members.
- Identity texts, `load` and `prepare_update` of the identity: single-branch members; the battery fields of the configuration are modelled with their validation.
- The packaging and flashing tools and the phone's own encoder: the encoder here is written from the documented layout.
- Staging buffers and digests of fixed size are sequences of bytes, so overlap between such buffers is not modelled; the hash context's block and state, the flash cells and the chunk tables are arrays.
- Upload.ChunkSession.Write: a session is not used after a failed flash access, and one session is live at a time, because the service drops a session on its first error and holds the mutex from begin to finish.
- Upload.WifiUpload.PutChunk: the pieces are nonempty and no longer than the announced length in all, because the service asks for no more than what is missing and ends the loop when nothing comes.
- Executor.ExecutorIo.OtherTasks: HTTP requests and link events are handled one at a time between two calls of a run; finer interleavings of single memory accesses are not modelled.
- CrashSafety.NextKeepsInv: handlers and tasks are steps on values instead of methods, because their interleaving with each other and with power loss is the point.
- ExecutionSafety.ReadyHasHistory: events are calls on the object as a whole; the lock around them makes them so in the firmware.
- ExecutionSafety.Safety.ReleaseTask: the events that start the attempts over while one task runs are finite in number, as a parameter; with endlessly many the loop need not end.
- TickWait.SchedulerWaitTicks: counts the ticks of each delay; that the scheduler measures them from the last wake-up, and what it adds while other tasks run, is not modelled.
- Battery.IdentityState.RecordActivity: time runs forwards and the active time does not overflow 64 bits; a single report is exact for all values, wrap-around included.
- HidRuntime.Runtime.RunTest: the reports are those of one run; other runs that take the link after a disconnect show in the flags, not in this run's reports.
- StopRace.StopCanBeLost: the run is a record and a log that fit each other and the executor's contract; methods with arbitrary answers cannot be made to give one.
- Device.Board.Start: the answers of the calls outside the board (marker, task, response, marker again) are arguments, any of which may fail; the safety machine is judged once, before the upload is asked; what happens to it afterwards shows in the run through the link only.
- The strength of SHA-256 and of the CRC against intent: the digest is a function here, and the CRC results are about windows of four bytes.
