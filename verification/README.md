# Verification model of maboo

maboo is a Go application server that runs PHP in a pool of workers. This project models its five stateful cores in
Dafny and proves what they guarantee, for every input, every run and every interleaving.

- **Worker pools** (`PoolMachine`, `PoolSize`, `PoolWatch`, `PoolReload`, `PoolTokens`, `EmbeddedPool`, `EmbeddedExecIO`,
  `WorkerList`). The process pool and the embedded pool share the code of Start, spawnWorker, replaceWorker,
  removeWorker, autoScale and Reload. They are one transition system: every goroutine is a thread with a program counter,
  and one action is one lock section, one channel operation or one counter update. `WorkerList` is the `workers` slice as the backing array Go shifts in
  place, and `EmbeddedExecIO` is Exec on worker objects.
- **Worker protocol** (`ProcessPool`, `ProcessPoolInv`, `ProcessPoolTheorems`, `ProcessJobs`, `ProcessStops`, `PhpLoop`,
  `ProcessExecIO`). The process pool together with its PHP workers, over one pair of FIFO frame pipes for each worker.
  Handlers emit any number of RESPONSE frames, Execs time out, workers are stopped at any moment in the order of `Worker.Stop`, and PHP may die at any point.
  `PhpLoop` is `Worker::run` as a loop over its own fields, and `ProcessExecIO` is `Pool.Exec` with `Worker.Exec` on worker
  objects; both are proved to take only the steps that system has.
- **maboo-wire framing** (`Bytes`, `Slices`, `Wire`, `WireIO`). One format, two writers (Go's on a reused buffer, PHP's by
  string building) and two readers (one coalesced read, or two reads in a loop of short reads).
- **MessagePack in PHP** (`PhpKeys`, `Msgpack`, `MsgpackTrip`, `MsgpackForms`, `MsgpackNormal`, `MsgpackCut`, `MsgpackIO`).
  The codec on arbitrary values and arbitrary bytes, with PHP's array keys.
- **Index and buffer objects** (`Rooms`, `StreamServer`, `Mirror`, `Compress`, `Transparency`, `CompressIO`). The
  WebSocket room index and its PHP mirror, and the lazy gzip response writer.

`Common` holds the two definitions that several of these share.

Where the source updates things in place the model is a class or a method with loops, and its contract ties it to a
function or a transition system about which the lemmas are proved.

## Findings

Properties that do not hold of the code. Each has a run or an input at which it fails, and the exact condition under
which it holds.

- An Exec that is given a frame type other than REQUEST or WORKER_STOP can wait for a READY that PHP never sends while
  PHP waits for input, and can return a pong or a READY as the response: PHP answers PING with a pong alone, and unknown
  types with READY alone. An Exec of the other two types never does, whatever is given to the Execs beside it
  (`NeverStuckIff`, `GetStuck`; `CorrelatesIff`, `GetWrongAnswer`).
- autoScale can push the pool above MaxWorkers when it samples the list between removeWorker and spawnWorker
  (`StaleSampleOverfills`), and a respawn that fails leaves the pool below MinWorkers (`FailedRespawnShrinks`). The bounds
  hold along a run exactly when each decision and each failed spawn leaves room for what is under way
  (`BoundedIffSound`), which for decisions is a matter of what their sample missed (`BoundedIffSamplesAllow`).
- A health check that comes between the Stop and the removal of a worker that is being replaced has it replaced once
  more, above MaxWorkers (`DeadWorkerIsReplacedTwice`): a replacement is one for one exactly when the worker is still
  listed (`Respawns`).
- An answer that PHP has given in full is lost, and Exec fails, when a Stop comes before the read and its Wait closes the
  pipe (`StopLosesAnswer`). When exactly a read fails, and Exec with it, is in the contract of `ProcessExec.Exec`.
- Reload leaves tokens of workers that are no longer listed in the channel, exactly those of workers a Reload drained
  (`ReloadBreaksConservation`, `StaleIffDrained`, `DrainLoopLeavesTokens`), and its own hand-over can wait
  for room, in a quiet pool exactly when the pool and MinWorkers more exceed MaxWorkers (`ReloadCanBlock`,
  `ReloadAloneWaitsIff`, `NoSendWaits`).
- The MessagePack decoder accepts some input that stops too early: a string of any form whose length or bytes are cut
  off, and a uint8 whose byte is. Every other cut-off value throws (`CutLeavesByExample`, `OverrunIffCutLeaf`,
  `CutDecodesIff`). Nothing in the codec's comments says so.
- The gzip writer loses the bytes buffered so far when WriteHeader is the first to see a compressible content type
  (`LateHeaderLosesBytes`, `BodyPreservedIff`). If that status was an informational one, no header goes out yet, and the
  handler can take the announcement of gzip back (`LateHintsHideGzip`, `GzipAnnouncedIff`).
- A handler that calls WriteHeader before it has written 1024 bytes never gets gzip, whatever else it does, although the
  middleware's comment promises it to eligible responses (`UsualOrderNoGzip`, `EarlyStatusNoGzip`, `GzipIff`).
- The gzip writer changes the status: an informational WriteHeader hides the real one behind it, and one that comes after
  the first write is sent although it would be too late (`HintsHideStatus`, `StatusAfterWriteIsSent`, `StatusIff`,
  and `HintsPassedOn` for the informational ones). When the layer is transparent altogether is in `TransparentIff`.
- A RemoveConnection that overtakes the AddConnection it belongs to leaves PHP with a connection for good
  (`EarlyRemovalLeaks`, `MirrorsIffNeverTooEarly`). The handler in the repository does not do this.
- AddConnection does not check that the id it drew is free; if it is taken by a client that is in a room, the index stops
  being consistent (`TakenIdBreaksIndex`, `AddKeepsIff`).

## Model

| member | source | states |
|---|---|---|
| PoolMachine.RunKeepsInv | internal/worker/pool.go:183-309 | in every run a worker id is in at most one hand (channel slot, Exec, pending send, scale-down), the list has no id twice and activeWorkers is its length |
| PoolMachine.NoTwoExecsShareAWorker | internal/pool/pool.go:75-140 | two Execs never hold the same worker, and a held worker is not in the channel, Reload and health checks included |
| PoolMachine.ScalingThresholds | internal/pool/pool.go:303-334 | autoScale's integer tests are the percentages: up at 80 and more below the maximum, down at 20 and less above the minimum, never both |
| PoolWatch.DecisionInPercent | internal/pool/pool.go:303-334 | one autoScale decision and all its effects: at 80 percent and more below the maximum the watchdog goes on to spawn; at 20 and less above the minimum one idle worker, if any waits, goes from the front of the channel to a stopping goroutine; unless it spawns the watchdog ticks again; nothing else changes |
| PoolWatch.WatchdogLivesIff | internal/worker/pool.go:65-84 | in every run of all actions, autoScale's goroutine is there, in Start's loop or as the watchdog, exactly as long as no spawn of Start has failed |
| PoolWatch.StepRank | internal/worker/pool.go:237-275 | a tick samples the list as it is; any other step of the watchdog's own brings the next tick nearer, whether a scale-up succeeds or fails; nobody else moves it |
| PoolWatch.WatchdogComesRound | internal/pool/pool.go:271-284 | along every run without a failed start the watchdog makes at most 3 * MinWorkers steps to start and then at most six from tick to tick |
| PoolWatch.BusyCountsHolders | internal/pool/pool.go:88-89 | in every run the busy counter is the number of Execs that have a worker |
| PoolMachine.RemoveIdWorks | internal/pool/pool.go:235-246 | removeWorker takes out the one matching entry, keeps all others, and is a no-op for an unlisted id |
| WorkerList.WorkerSlice.Append | internal/worker/pool.go:198-201 | append adds the id behind the others and counts it, in place or in a new array |
| WorkerList.WorkerSlice.CloseGap | internal/worker/pool.go:230 | the in-place shift drops exactly one index |
| WorkerList.WorkerSlice.Remove | internal/worker/pool.go:224-235 | the loop over the backing array computes the machine's removeWorker and counts down exactly when the id was listed |
| WorkerList.WorkerSlice.Snapshot | internal/worker/pool.go:282-285 | the copy is a new array with the listed ids |
| WorkerList.WorkerSlice.Drain | internal/worker/pool.go:295-302 | draining a copied snapshot leaves exactly the other ids in order, although the shared array is shifted meanwhile |
| WorkerList.WithoutOneMore | internal/worker/pool.go:296-302 | removing one more drained id is removing it from what was left |
| PoolSize.RunKeepsConserved | internal/worker/pool.go:87-111 | without health checks and until a Reload removes a drained worker, the list is at every step the disjoint union of the channel and of what goroutines own |
| PoolSize.QuietPoolIsPermutation | internal/worker/pool.go:183-274 | with nothing in flight the channel is a permutation of the list |
| PoolSize.BoundedIffSound | internal/worker/pool.go:206-274 | the two pool-size bounds hold all along a run, spawns failing or not, exactly when each autoScale decision, each Reload and each failed spawn leaves room for what is under way |
| PoolSize.BelowIffSoundUp | internal/worker/pool.go:251-261 | the upper bound alone, exactly when each scale-up and each Reload leaves room |
| PoolSize.BoundedIffSamplesAllow | internal/worker/pool.go:251-274 | without Reload and failed spawns, the bounds hold all along a run exactly when each decision respects them once its sample is corrected by the replacements and scale-downs it missed |
| PoolSize.CalmSamplesAreSound | internal/worker/pool.go:251-274 | scale-ups decided on samples without a replacement under way, and scale-downs on samples with no more scale-downs than replacements, are sound however stale when made |
| PoolSize.SendIsEnabled | internal/worker/pool.go:221 | inside the upper bound a hand-over to the channel finds room |
| PoolSize.PoolStaysInBounds | internal/worker/pool.go:206-274 | from Start on, if no scale-up was decided on a sample with a replacement under way: list + owed + scale-ups + starts left <= max and no hand-over waits, also when spawns fail; if they succeed and no scale-down was decided on a sample with more scale-downs than replacements: min <= list + owed + starts left - scale-downs |
| PoolSize.NoSendWaits | internal/worker/pool.go:206-292 | from any state within the upper bound, while scale-ups and Reloads leave room, no hand-over to the channel waits before a drained worker is removed |
| PoolSize.FailedRespawnShrinks | internal/worker/pool.go:214-220 | a run of a pool of one that ends with no worker and nothing under way |
| PoolSize.StaleSampleOverfills | internal/pool/pool.go:303-317 | a run of a pool with MaxWorkers 2 that ends with three listed workers |
| PoolReload.ReloadCompletes | internal/worker/pool.go:277-309 | when a drain loop ends its snapshot is gone for good, and each of its MinWorkers new workers is listed unless recycled, scaled down or reloaded by another |
| PoolReload.ReloadReplacesAll | internal/worker/pool.go:277-309 | from a Reload's begin to the end of its drain loop, in any interleaving: no worker listed at the begin is listed at the end or ever after, and MinWorkers new ones were listed, each still there unless someone else removed it |
| PoolReload.RunKeepsDeparted | internal/worker/pool.go:183-204 | an id that left the list never comes back |
| PoolReload.DrainLeavesItsToken | internal/worker/pool.go:295-302 | draining a worker leaves a stale token in the channel exactly when the worker was waiting there |
| PoolReload.ReloadBreaksConservation | internal/pool/pool.go:336-377 | a run whose completed Reload leaves the old token in the channel |
| PoolReload.ReloadCanBlock | internal/pool/pool.go:347-358 | a run in which Reload's first hand-over has no room |
| PoolTokens.StaleIffDrained | internal/worker/pool.go:277-309 | in every run without health checks, with any Reloads in any interleaving, a token in the channel stands for an unlisted worker exactly when a Reload drained that worker |
| PoolTokens.DrainLoopLeavesTokens | internal/worker/pool.go:295-302 | a whole drain loop alone leaves the channel as it was, and all its tokens valid exactly when none of the drained workers waited there |
| PoolTokens.ReloadAloneWaitsIff | internal/worker/pool.go:287-293 | a Reload of a quiet pool comes to a hand-over that waits exactly when the listed workers and MinWorkers together exceed MaxWorkers |
| PoolTokens.ReplaceLeavesItsToken | internal/pool/pool.go:212-233 | removing a replaced worker leaves a stale token in the channel exactly when the worker was waiting there |
| PoolTokens.Respawns | internal/pool/pool.go:212-233 | from its removal step on, with nobody else at work, a replacement keeps the number of listed workers exactly when the replaced one is still listed, and otherwise adds one |
| PoolTokens.DeadWorkerIsReplacedTwice | internal/pool/pool.go:286-301 | a run in which a health check replaces a worker that is already being replaced, and a pool of one ends with two workers |
| EmbeddedPool.RefinesPoolMachine | internal/worker/pool.go:87-111 | every run of the embedded pool is a run of the pool machine |
| EmbeddedPool.JobCap | internal/worker/worker.go:77-93 | in every run, also under Reload, no worker passes MaxJobs and each one in the channel or in hand is below it |
| EmbeddedExecIO.EmbeddedExec.Serve | internal/worker/pool.go:99-108 | the allocated worker goes back behind the others, or to replaceWorker exactly when it is at its limit |
| EmbeddedExecIO.EmbeddedExec.Exec | internal/worker/pool.go:87-111 | each call is a run of the embedded pool, and the objects show the state it ends in |
| ProcessPoolTheorems.ResponseBelongsToRequest | internal/pool/pool.go:75-140 | in every run, an Exec of a REQUEST or WORKER_STOP that succeeds returns the first frame PHP wrote for that Exec's own request, under all other Execs, frame types, timeouts, extra answers, stops and crashes |
| ProcessPoolTheorems.WaitingWorkersAreClean | internal/pool/pool.go:126-137 | in every run, whatever frames are given: a worker in the channel has no answer left in its pipe and equal counters; undisturbed, PHP waits at the loop head with nothing to read |
| ProcessJobs.ProcessJobCap | internal/pool/pool.go:126-137 | in every run, whatever frames Exec is given, no worker passes MaxJobs and each one in the channel or on its way there is below it |
| ProcessPoolTheorems.CorrelatesIff | internal/pool/pool.go:75-140 | every Exec of a frame of a type returns its own answer in every run, whatever types the other Execs are given, if and only if that type is REQUEST or WORKER_STOP |
| ProcessPoolTheorems.GetWrongAnswer | internal/pool/pool.go:126-139 | for every other frame type, a run in which Exec returns a pong or a READY |
| ProcessPoolTheorems.LimitExitIffRecycle | internal/pool/pool.go:248-260 | in every run, during an Exec of a REQUEST PHP leaves at its limit exactly when Go recycles without waiting for READY; a frame of another type is not counted by PHP and does not make it leave |
| ProcessPoolTheorems.NeverStuckIff | internal/pool/worker.go:96-119 | no Exec of a frame of a type is ever reading while its worker waits for input, whatever types the other Execs are given, if and only if that type is REQUEST or WORKER_STOP |
| ProcessPoolTheorems.SpawnNeverStuck | internal/pool/worker.go:66-77 | in every run, a spawn that reads the first READY and its worker never wait for each other |
| ProcessPoolTheorems.GetStuck | php-sdk/src/Worker.php:56-78 | for every other frame type, a run into that state |
| ProcessPoolTheorems.StopLosesAnswer | internal/pool/worker.go:155-175 | a run in which PHP answers in full, a Stop comes before the read, and Exec fails |
| ProcessPoolTheorems.RefinesPoolMachine | internal/pool/pool.go:75-140 | every joint run is, on the Go side, a run of the pool machine |
| ProcessStops.RemovedWorkersAreStopped | internal/pool/pool.go:212-224 | in every run, a worker that replaceWorker, a scale-down or a Reload is about to take out of the list has been stopped and its stdin is closed |
| ProcessPoolInv.EventKeepsRightlyAsked | php-sdk/src/Worker.php:44-79 | whatever PHP or a Stop does, a worker that was asked a request holds that one request, or its answers so far, and nothing else |
| ProcessPoolInv.ReadyLeavesIdle | internal/pool/pool.go:130-136 | the READY check is what makes a worker clean: the frame read is READY only if every answer of the request is out of the pipe |
| ProcessExecIO.ProcessWorker.Stop | internal/pool/worker.go:155-160 | Stop is the system's three events in that order: mark, STOP frame if it can be written, close |
| ProcessExecIO.Serve | internal/pool/pool.go:91-140 | an error exactly on timeout, failed write or failed read; else the response is the frame read, and the worker goes back exactly when it is below MaxJobs and its next read is READY; every branch is a run of the joint system that ends with that answer and that fate of the worker |
| ProcessExecIO.ProcessExec.Exec | internal/pool/pool.go:75-140 | the same on the pool's own fields: the worker is behind the others in the channel, or retired, exactly as the worker's pipes and the schedule say; each call is a run of the joint system, and a response is the reply recorded for its own request |
| ProcessExecIO.AnsweredInTime | internal/pool/pool.go:75-140 | a request that an idle worker answers in time gets PHP's first frame, and the worker goes back exactly if that was the only one, memory is not over its limit and a job is left |
| PhpLoop.PhpWorker.HandleRequest | php-sdk/src/Worker.php:82-127 | the handler's answers go out one by one, as steps of the joint system |
| PhpLoop.PhpWorker.RunTurn | php-sdk/src/Worker.php:44-79 | one pass through the loop body is those steps and computes the turn function, of which the conversation theorems speak |
| PhpLoop.PhpWorker.Run | php-sdk/src/Worker.php:35-80 | for any frames and any memory use the loop ends; what it has written is an answer for each frame up to the last one it deals with (a WORKER_STOP, or one that leaves it at its request limit or over its memory limit), in order, READY behind each but that one and the pongs; what is behind that one stays unread; and all of it is PHP's own steps |
| PhpLoop.OutcomeFromStart | php-sdk/src/Worker.php:44-79 | the turn function, iterated, is that conversation |
| PhpLoop.ServesInOrder | php-sdk/src/Worker.php:61-78 | given requests only, they are answered in order up to the first that leaves the worker at its request limit or over its memory limit: READY follows each earlier one, its own answers come last, the rest stays unread |
| Wire.RoundTripIff | internal/protocol/wire.go:59-153 | a frame followed by anything is read back whole exactly when its fields fit their widths |
| Wire.EncodeParse | internal/protocol/wire.go:109-153 | what is accepted is in range, and the bytes consumed are its one encoding |
| Wire.PrefixRejected | php-sdk/src/Protocol/Wire.php:31-72 | no strict prefix of an accepted frame is accepted |
| Wire.Layout | internal/protocol/wire.go:59-97 | the bytes of a frame one by one: magic, version, type, flags, and three numbers with their most significant byte first |
| Wire.StreamDecodesUniquely | internal/protocol/wire.go:59-97 | two lists of frames with the same bytes are the same list |
| WireIO.GoWriteFrame | internal/protocol/wire.go:59-97 | the bytes written depend on the frame only, whatever the pooled buffer held or could hold, also when the write fails half way; the buffer kept is never the caller's |
| WireIO.FillHeader | internal/protocol/wire.go:68-82 | all 14 header positions of the reused buffer are overwritten |
| WireIO.PhpHeader | php-sdk/src/Protocol/Wire.php:81-95 | the appended header string is the same 14 bytes |
| WireIO.PhpWriteFrame | php-sdk/src/Protocol/Wire.php:77-105 | the three writes put the same bytes on the stream as one write, also when the other side stops taking them |
| WireIO.ReadExact | php-sdk/src/Protocol/Wire.php:110-123 | for every way the stream chunks its reads: the next bytes in full, or an exception at end of file with nothing left |
| WireIO.PhpReadFrame | php-sdk/src/Protocol/Wire.php:31-72 | accepts, returns and consumes what the one parser does, on every byte stream |
| WireIO.ReadFull | internal/protocol/wire.go:113-116 | fills the whole buffer whatever it held, or fails with nothing left |
| WireIO.GoReadFrame | internal/protocol/wire.go:109-153 | accepts, returns and consumes what the one parser does, hence the same as the PHP reader |
| WireIO.WriteAll | internal/protocol/wire.go:59-97 | any mix of the two writers puts the frames' encodings on the pipe in order |
| WireIO.ReadAll | php-sdk/src/Protocol/Wire.php:31-72 | any mix of the two readers gives the frames back in order and leaves nothing |
| PhpKeys.NormalizeIff | php-sdk/src/Protocol/Msgpack.php:312 | a string becomes an integer array key exactly when it is that integer's decimal form |
| PhpKeys.KeyRoundTrip | php-sdk/src/Protocol/Msgpack.php:117 | a key written as text and used as a key again is the same key |
| PhpKeys.NormalizeKeepsText | php-sdk/src/Protocol/Msgpack.php:312 | normalising a string loses nothing: the key's text is the string |
| Msgpack.DecodeValue | php-sdk/src/Protocol/Msgpack.php:123-179 | decoding terminates on every byte string, moves the offset forward, and starts at most as many values as there are bytes |
| Msgpack.DecodeArray | php-sdk/src/Protocol/Msgpack.php:298-305 | whatever count is claimed, the items started are bounded by the bytes consumed, or left when it throws |
| Msgpack.DecodeMap | php-sdk/src/Protocol/Msgpack.php:307-315 | the same for pairs |
| Msgpack.Put | php-sdk/src/Protocol/Msgpack.php:312 | assigning a key overwrites in place if it is there, else appends |
| MsgpackTrip.TripValue | php-sdk/src/Protocol/Msgpack.php:14-315 | decoding at an offset where encode's bytes stand gives the value and stops right behind them, whatever stands around |
| MsgpackTrip.RoundTrip | php-sdk/src/Protocol/Msgpack.php:14-44 | decode(encode(v) followed by anything) is v with the offset at the length of encode(v) |
| MsgpackTrip.PrefixFree | php-sdk/src/Protocol/Msgpack.php:14-38 | no encoding is a prefix of another value's, so encode is injective |
| MsgpackTrip.TripNumber | php-sdk/src/Protocol/Msgpack.php:230-255 | the sign extension restores every number in the signed range of its width |
| MsgpackForms.FormIsRead | php-sdk/src/Protocol/Msgpack.php:123-315 | each form of the format, by tag, width and sign, also where encode would write a shorter one, is decoded to the value it stands for, and reading stops right behind it |
| MsgpackForms.DecodesIff | php-sdk/src/Protocol/Msgpack.php:123-315 | at any offset of any bytes the decoder yields a value and stops inside the data exactly when a form that stands for it ends there |
| MsgpackForms.OnePair | php-sdk/src/Protocol/Msgpack.php:307-315 | the array key that a decoded key of each type becomes |
| MsgpackNormal.DecodedValue | php-sdk/src/Protocol/Msgpack.php:123-315 | every value the decoder returns is one encode can carry: 64-bit integers, distinct normalised keys, lengths below 2^32 |
| MsgpackNormal.DecodableIffEncodable | php-sdk/src/Protocol/Msgpack.php:14-44 | the decoder's possible results are exactly the encodable values |
| MsgpackNormal.DecodeIsStable | php-sdk/src/Protocol/Msgpack.php:14-44 | re-encoding any decoded value and decoding again changes nothing |
| MsgpackNormal.PutKeys | php-sdk/src/Protocol/Msgpack.php:312 | assigning a key sets the value of the entry that has it, or adds one at the end, and changes no other entry and no key's place |
| MsgpackNormal.ShortestForm | php-sdk/src/Protocol/Msgpack.php:46-121 | without floats and with string keys, encode of what was read is no longer than the bytes it was read from, duplicate keys and maps that decode to lists included |
| MsgpackCut.CutLeavesByExample | php-sdk/src/Protocol/Msgpack.php:144-282 | inputs that stop too early and are accepted, one for each form, and inputs that throw |
| MsgpackCut.CutLeafIs | php-sdk/src/Protocol/Msgpack.php:144-282 | what every cut-off string or uint8 decodes to: what is left of it, the empty string when its length is cut off, or 0; and where the offset ends |
| MsgpackCut.OverrunIffCutLeaf | php-sdk/src/Protocol/Msgpack.php:123-315 | a successful decode has read past the end exactly when the last value it read is a string with its length or bytes cut off or a uint8 without its byte |
| MsgpackCut.CutDecodesIff | php-sdk/src/Protocol/Msgpack.php:123-315 | a proper prefix of an encoding decodes without an exception exactly when the cut is inside the last leaf behind its first byte and that leaf is a string or an integer from 128 to 255 |
| MsgpackIO.EncodeValue | php-sdk/src/Protocol/Msgpack.php:14-38 | the recursive encoder with its loops computes the encoding function |
| MsgpackIO.EncodeArray | php-sdk/src/Protocol/Msgpack.php:90-104 | header and items appended in order |
| MsgpackIO.EncodeMap | php-sdk/src/Protocol/Msgpack.php:106-121 | header, key text and value of each pair appended in order |
| MsgpackIO.Reader.DecodeNext | php-sdk/src/Protocol/Msgpack.php:123-179 | with the offset moved in place: the specified value and offset, or an exception, on every byte string |
| MsgpackIO.Reader.ReadIntOf | php-sdk/src/Protocol/Msgpack.php:202-255 | the fixed-width integer reads, sign restored, or a TypeError when cut off |
| MsgpackIO.Reader.ReadStrOf | php-sdk/src/Protocol/Msgpack.php:266-282 | the length-prefixed string reads; a cut-off length gives the empty string |
| MsgpackIO.Reader.DecodeArrayItems | php-sdk/src/Protocol/Msgpack.php:298-305 | the loop computes the specified list |
| MsgpackIO.Reader.DecodeMapItems | php-sdk/src/Protocol/Msgpack.php:307-315 | the loop computes the specified map with normalised keys |
| MsgpackIO.DecodeString | php-sdk/src/Protocol/Msgpack.php:40-44 | the public decode: the first value, or an exception |
| Rooms.IndexTellsHistory | internal/websocket/manager.go:55-185 | after any sequence of operations, who is registered and who is in which room is what the history of additions, joins, leaves and removals says |
| Rooms.Replay | internal/websocket/manager.go:55-185 | a manager after any list of operations with fresh ids is consistent and shows exactly the relation of that list |
| Rooms.Manager.AddConnection | internal/websocket/manager.go:55-66 | registers a client without rooms; the index stays consistent exactly when the id was free or its old owner was in no room |
| Rooms.Manager.RemoveConnection | internal/websocket/manager.go:82-112 | removes the id from both sides of the index and from every room, and sends a close only if it was registered |
| Rooms.Manager.JoinRoom | internal/websocket/manager.go:152-166 | adds the pair on both sides, and nothing for an unknown id |
| Rooms.Manager.LeaveRoom | internal/websocket/manager.go:169-185 | takes the pair out of both sides and drops the room with its last member |
| Rooms.AddKeepsIff | internal/websocket/manager.go:55-66 | the two maps stay inverse to each other exactly when nothing was in a room under the new id |
| Rooms.TakenIdBreaksIndex | internal/websocket/manager.go:55-66 | a taken id whose client is in a room leaves the two maps inconsistent |
| Rooms.RemoveKeeps | internal/websocket/manager.go:90-100 | clearing the client's rooms and dropping the client keeps the maps inverse and removes exactly its pairs |
| Rooms.Manager.AudienceIsMembers | internal/websocket/manager.go:188-202 | the recipients are the relation's members of the room but the excluded id, one client for each id |
| Rooms.Manager.BroadcastToRoom | internal/websocket/manager.go:188-209 | each member by the relation but the excluded one is sent the message once and no other client anything, whether or not sockets refuse |
| Rooms.Manager.Broadcast | internal/websocket/manager.go:226-241 | the same for all registered clients |
| Rooms.Manager.RouteReply | internal/websocket/manager.go:133-147 | for every registered client: it is sent a stream frame from PHP, once, exactly if it is in the room the frame names or, when none is named, is the connection it names |
| StreamServer.SeenIffOpen | php-sdk/src/WebSocket/Server.php:109-145 | PHP holds an id exactly when its last connect has no close behind it |
| StreamServer.Server.HandleStream | php-sdk/src/WebSocket/Server.php:109-145 | one event's effect on the connection map, and the one handler call with the connection object kept since connect |
| StreamServer.Server.Run | php-sdk/src/WebSocket/Server.php:70-107 | the loop makes one handler call for each known event handled, in order, keeps the connections that remain open, and answers each PING |
| StreamServer.HandledInOrder | php-sdk/src/WebSocket/Server.php:82-106 | the events handled are those of the stream frames in front of the first STOP, each at its place, and the pings counted are those in front of it |
| Mirror.MirrorsIffNeverTooEarly | internal/websocket/manager.go:64-112 | at every step of every interleaving PHP's keys are the clients minus pending connects plus pending closes, if and only if no removal comes before its AddConnection returned |
| Mirror.OneCloseForEachConnect | internal/websocket/handler.go:39-50 | repeated removals send no second close: PHP sees connect and close alternate for each id, and with nothing on the way both sides hold the same ids |
| Mirror.MessagesArriveInOrder | internal/websocket/manager.go:115-127 | every message a connection reads reaches PHP once, under its id, in order, whatever is removed when |
| Mirror.EarlyRemovalLeaks | internal/websocket/manager.go:82-112 | a run with an early removal after which PHP keeps a connection nobody has |
| Compress.BodyPreservedIff | internal/server/compress.go:100-162 | for any sequence of header changes, writes and status calls, then Close, the decoded body is all that was written if and only if no WriteHeader came late |
| Compress.FixedTypeKeepsBody | internal/server/compress.go:70-80 | a handler that fixes content type and encoding before its first write never loses a byte |
| Compress.LateHeaderLosesBytes | internal/server/compress.go:107-110 | any 1024 or more buffered bytes are lost when the type is set between them and WriteHeader |
| Transparency.HeaderTellsTheTruth | internal/server/compress.go:100-162 | for every handler one header goes out and never a second, with the status of a first WriteHeader that is not informational, else 200; without gzip its headers are the handler's own; with gzip they are the handler's own with Content-Encoding and Vary set, no Content-Length and all else the same, and what the handler changed in them before they went out; if no WriteHeader came late nothing lies between |
| Transparency.GzipHeaders | internal/server/compress.go:140-149 | for every handler whose body goes through gzip: Content-Encoding "gzip", Vary "Accept-Encoding", no Content-Length and every other header as the handler had it when gzip was chosen; only behind an informational status that chose it can the handler still change them |
| Transparency.HintsPassedOn | internal/server/compress.go:100-113 | for every handler the one informational status that goes out, if any |
| Transparency.SwitchGoesThrough | internal/server/compress.go:100-113 | status 101 called first goes out at once, with and without the layer |
| Transparency.PlainCountsSuperfluous | internal/server/compress.go:100-105 | without the layer each status call behind the header is superfluous; the layer swallows them |
| Transparency.ShouldCompressIff | internal/server/compress.go:70-98 | when headers ask for compression, told by where the type's text stands |
| Compress.GzipAnnouncedIff | internal/server/compress.go:107-149 | a body through gzip is announced as gzip exactly when no late informational status is followed by the handler taking the announcement back before its next write |
| Compress.LateHintsHideGzip | internal/server/compress.go:107-112 | a handler whose gzip body goes out without Content-Encoding |
| Transparency.GzipIff | internal/server/compress.go:100-138 | for every handler: gzip is used exactly when some write or first WriteHeader finds 1024 bytes or more written and headers that ask for compression |
| Transparency.EarlyStatusNoGzip | internal/server/compress.go:123-124 | for every handler: a WriteHeader before 1024 bytes are written rules gzip out |
| Transparency.UsualOrderNoGzip | internal/server/compress.go:100-113 | type, status, body is not compressed, type, body is |
| Transparency.StatusIff | internal/server/compress.go:100-112 | for every handler: the status is that of the handler without the layer if and only if the first WriteHeader, unless a write chose gzip before it, keeps it, told by its code, by whether something was written before, and, for an informational one, by what the rest sends |
| Transparency.HintsHideStatus | internal/server/compress.go:100-105 | status 103, then 404: the client gets 200 |
| Transparency.StatusAfterWriteIsSent | internal/server/compress.go:115-121 | a status set after the first small write goes out, where without the layer it would not |
| Transparency.TransparentIff | internal/server/compress.go:31-50 | for every handler: status, headers up to announcing gzip, and decoded body are those of the handler without the layer if and only if no WriteHeader comes late, the status is kept, and the handler's headers are the same at the moments the two send them |
| Transparency.LayerIsTransparent | internal/server/compress.go:31-50 | for a handler that sets headers and a final status before writing, all of that holds |
| CompressIO.CompressWriter.Reset | internal/server/compress.go:61-68 | a used writer starts afresh and keeps its backing array |
| CompressIO.CompressWriter.WriteHeader | internal/server/compress.go:100-113 | the object's fields and the inner response follow the machine |
| CompressIO.CompressWriter.Write | internal/server/compress.go:115-138 | the same, the stale part of the reused buffer has no effect, and every branch reports len(b) |
| CompressIO.CompressWriter.Close | internal/server/compress.go:151-162 | the same, and the gzip writer is given back |
| CompressIO.Serve | internal/server/compress.go:40-48 | with a pooled writer in any state the response is the machine's |
| CompressIO.Middleware | internal/server/compress.go:31-50 | clients that do not accept gzip get the handler's own response |

## Left out

- Stop of a whole pool: a modelled run ends when the context is cancelled, since Stop closes a channel that senders may still use.
- Real time: tickers, timeouts, Reload's polling and the duration of a Stop are events that may happen at any moment. Reload's busy-wait therefore gives no guarantee here that a drained worker is idle.
- Worker ids are unbounded; the 32-bit counter's wrap-around is not modelled.
- busyPct is compared as exact integers (5*busy >= 4*total, 5*busy <= total) instead of floating point, and the busy counter read by autoScale may be off by any amount, to cover updates that have not happened yet.
- The health check is an event that may start a replacement of any listed worker; process liveness is not modelled.
- Pipes have unbounded capacity and carry whole frames. A process that dies while writing leaves whole frames, and a partial frame reads as an error either way.
- PoolStaysInBounds: asks for calm samples, which is a simple sufficient condition; the exact one is in BoundedIffSamplesAllow.
- Worker.Exec's mutex: each worker is held by one Exec at a time, which is proved, so the lock is not part of the model. Ping and ExecStream, which nothing in the pool calls, are left out.
- Handlers that write raw text to STDOUT, as the WebSocket example worker does.
- What PHP code and the engine compute: handlers, Execute and memory use are oracles.
- PhpWorker.Run: stdin is given as a whole and then ends; blocking on an open, empty pipe is covered by the joint system instead.
- Go's nil and empty slices are the same empty sequence.
- ProcessExec.Exec: the rest of the pool stands still during the call; interleavings of several Execs are covered by the joint system.
- Frame sizes that exceed Go's int or PHP's memory limit: a reader either gets the bytes or fails.
- Go's msgpack library and the wrappers around it.
- Floats in msgpack are opaque bytes; PHP's conversions from float32 and to string are arbitrary functions, taken for DecodedValue and ShortestForm to give 8 bytes and strings shorter than 2^32.
- PHP warnings (reading behind the end of a string, array to string) are not observable; only values, offsets and exceptions are.
- PHP values encode rejects with an exception (objects, resources): the value type has none.
- Unicode: Go and PHP strings are bytes; room names, ids and header values are Dafny strings.
- Manager.BroadcastToRoom: the sends follow the snapshot with nothing in between; a client that joins or leaves meanwhile is not modelled there.
- Reload's error path in the process pool, which stops the workers it has spawned so far: Stops of arbitrary workers at arbitrary moments are part of the joint system.
- Mirror: one PHP worker, and frames that arrive; with several workers each holds only the connections whose frames it got, and phpForward's errors are ignored by the source.
- Mirror.Action: connection ids are fresh with respect to ids still in use; generateConnID draws them at random.
- gzip itself: a stream from which the written bytes are recovered when it is closed and nothing else is mixed in.
- net/http: its response writer takes what it is given; failing connections, invalid status codes, HEAD requests and statuses without a body are left out. Header names are in canonical form.
- Metrics, version selection, routing, static files, configuration, file watching, TLS and the framework bridges.
